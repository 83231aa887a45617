# A verified model of the knowledge-base platform

The repository is a multi-tenant document platform. A worker syncs directories of
object storage into one private vector collection per user. Content is identified by
its SHA-256: extracted text, chunks and embeddings are stored once and shared by all
users, while file rows (attribution), `user_blobs` rows (possession) and collections
stay per user. A retrieval service searches one user's collection and a sparse index,
fuses the two, and resolves chunk ids to text only for what the user possesses. An API
streams answers to a browser.

This project models that logic and proves what it is for.

| files | what they hold |
|---|---|
| `Wrappers`, `Text`, `Sorting` | option and result types; Python's and the browser's string and sort operations, written out |
| `Extraction`, `Content` | bytes to text; what a content hash stands for once hash, splitter, decoder and embedder are fixed |
| `Store`, `Ladder` | the seven tables as one value, the repository's transactions, the dedup ladder of one sync step, reaps, removals, crash points, histories |
| `Invariant`, `Reachable` | what every operation keeps, failing or crashing anywhere, and what that says of every history |
| `Isolation`, `NonInterference` | what a user sees is a function of that user's own operations, and exactly where that ends |
| `Vectors`, `Crashes`, `Unnamed`, `Versions` | exactly which possessed bytes are found, which are named, and which are served the chunks of an older version; the histories that fail |
| `EmbedOnce`, `Removal`, `Runs`, `RunHistories` | the embedding bill, the last-reference rule, whole runs, and why a run, finished or not, is a history |
| `Engine` | the same engine as an object with mutable tables, loops, counters and escaping errors, proved equal to the functions above |
| `RunTable`, `RunProtocol`, `SyncRuns` | `sync_runs` under a partial unique index, every interleaving of transactions, `enqueue_run`'s retry loop |
| `Heartbeat`, `WorkedRun` | how slow a run may be before a reclaimer fails it |
| `Migration` | collapsing duplicate datasources |
| `Fusion`, `Retrieval`, `Documents`, `SparseCache`, `StaleIndex` | reciprocal-rank fusion, id resolution, citations, the count-checked BM25 cache |
| `Json`, `JsonReader`, `Frames`, `Answers` | the JSON and frame printers, their readers, the frames of one answer and what the page shows |
| `Policy`, `Scope` | path prefixes, what a registered path lists, browsing |

`dafny verify dfyconfig.toml` checks everything.

## How to read the model

- `Content.Env` holds what is not modelled from inside: `hash` (injective), UTF-8 `decode`,
  the text splitter, the embedding model as a function of one text, and float32 rounding
  (idempotent). Theorems hold for every `Env`.
- `Store.Tables` is the persistent state. A row id that a unique key fixes is represented
  by that key: a file row is (user, datasource, provider key). Timestamps are dropped and
  `deleted_at` is a flag; error text is reduced to its kind.
- One object step, one reaped row and one removal are atomic for the content theorems,
  which interleave them freely across users; a crash at each write inside an object step, a
  reap or a removal is an operation of its own. The run protocol is modelled at transaction
  granularity.
- `Ladder` and `Runs` specify; `Engine.Platform` has the fields, branches and loops of the
  source and each of its methods is proved equal to the specification, including counters.
  Where the source has a comprehension or one SQL statement, so has the method.
- Fetch, embedding, cache and vector-store failures are inputs of a step (`fetched`, `Fault`);
  an error that leaves a whole run is an input of the run (`Escape`, `Ending`).

## Where the code does not keep what it says

Each of these is a theorem with the failing case, beside the exact condition or the
strongest claim that does hold.

- `packages/core/extraction.py:22-23` and the shared cache: the suffix test is skipped on a
  cache hit, so an object with an unsupported name succeeds or fails depending on other
  users (`NonInterference.UnsupportedNameShowsTheCache`); `StepAgreesExactly` gives the
  exact condition.
- A crash between `drop_blob_for_user` and `remove_user_blob` leaves possession without
  vectors exactly when there were vectors to drop (`Crashes.RemovalCrashExactly`). Over any
  history possessed bytes cannot be found if and only if such a crash dropped their vectors
  and they have been possessed ever since (`Vectors.VectorsExactly`). The removal of their
  last name ends it (`Crashes.LastNameHeals`); `CrashInRemovalLosesVectors` plays it through.
  `_reap_deleted` and `remove_file` share the gap.
- `docs/architecture.md:175-178` drops a content with its last name. A name is also lost when its
  object is edited or cannot be fetched, and then the content stays possessed, readable and found
  (`Unnamed.EditKeepsTheOldText`); `NamesAccountExactly` says which operations do that.
- Text-cache transparency holds within one extraction version. Across a version bump a
  crash after `mark_blob_extracted` serves the old chunks for good
  (`Versions.CrashAfterMarkServesOldChunks`), exactly when there were other rows before
  (`MarkCrashExactly`).
- `packages/core/textstore.py:3-6` promises that documents re-chunk when `CHUNKING_VERSION` is
  bumped. `_text_chunks` asks for the extraction version only, so bytes that have rows keep
  their old chunks for good (`Versions.ChunkingBumpIsIgnored`), exactly unless the two
  splitters agree on them (`ChunkingBumpExactly`).
- `packages/core/config.py:3-6` promises that a model change invalidates cached work. The vectors
  of bytes that a user goes on possessing stay the old model's
  (`Versions.HeldVectorsKeepTheirModel`).
- Embeddings are paid for once, except where a step stops between `embed_texts` and
  `put_cached_vectors` (`EmbedOnce.PaidAgainExactly`, `LostCallsArePaidAgain`).
- `content_retained_for_other_references` is also true when nothing else references the
  content but there was no vector to drop (`Removal.RetainedExactly`): exactly for content
  without chunks, and after a removal that died halfway (`RetainedOverHistory`), as in
  `Crashes.CrashMakesTheReplyMislead`.
- `finish_run` has no state guard. With any number of workers an ended run keeps its state
  if and only if nobody finishes it after it was reclaimed (`RunProtocol.TerminalKeptExactly`),
  for which it takes another worker (`OverwritersWereReclaimed`), so with one it is final
  (`TerminalIsFinal`) and with two it is not (`TwoWorkersOverwrite`).
- The BM25 cache is stale after one blob is given up and another of as many chunks is
  gained (`StaleIndex.SwapIsNotSeen`); `SparseCache.IndexInForceExactly` says when it is not.
- `policy.normalise` strips whitespace and the storage provider's `_normalise_prefix` does
  not, so a path with whitespace at its ends may be registered and list keys outside the
  scope (`Scope.SpaceEscapesTheScope`); `RegisteredStaysInScope` says when it does not.
- `services/api/app/rag/routes.py:72-75` promises that only complete answers are kept in the
  chat memory; an answer that breaks off after some text is kept as well
  (`Answers.OnlyCompleteAnswersAreKept`).
- A broken answer is on screen as an error and in the chat memory as its text
  (`Answers.ScreenAndMemoryExactly`).
- Two mentions beat one in a fused ranking exactly for lengths m and n with
  1/(60+m) + 1/(60+n) > 1/61, at equal lengths up to 61 (`Fusion.BothFirstExactly`).
- The duplicate-datasource migration can hide a file: a live row gives way to a soft-deleted
  row of the survivor (`Migration.LiveFileIsHidden`); `LiveNamesExactly` says when.
- A policy part with whitespace after its slash allows a prefix that can be neither registered
  nor browsed by its own name (`Scope.SpacedPrefixIsUnreachable`); `Policy.SpacedPrefixExactly`
  says which prefixes that whitespace leads can.

## Model

| member | source | states |
|---|---|---|
| Extraction.LineEndTwinsExtractAlike | packages/core/extraction.py:35-37 | a document saved with CRLF or CR line ends extracts to the text of its LF twin |
| Extraction.ExtractedTextIsClean | packages/core/extraction.py:35-40 | extracted text is never blank, has no carriage return and no whitespace at its ends; normalising it again changes nothing |
| Content.NonBlankExactly | packages/core/chunking.py:20-23 | a piece of the split is kept exactly when it is not blank, and in its place |
| Content.Env.CanonIsOfTheBytes | packages/core/extraction.py:21-40 | the text a hash stands for is the text of whichever bytes have that hash |
| Store.RelPathInjective | packages/core/textstore.py:14-17 | two blobs never share a file of the text store |
| Invariant.EmptyIsSound | packages/core/schema.sql:1-166 | the empty platform satisfies the invariant |
| Invariant.WriteTextKeeps | packages/core/textstore.py:20-28 | until a blob is marked its text file may hold anything, so a torn write is harmless |
| Invariant.MarkKeeps | packages/core/repositories.py:189-197 | marking after the write keeps text, chunks and vectors in agreement |
| Invariant.MarkedIsCached | packages/core/sync.py:193-202 | a marked blob is never parsed again and its text ref is always readable |
| Invariant.TextChunksExact | packages/core/sync.py:190-209 | whichever branch runs, the chunks are those of extract-then-chunk, and it raises exactly when no branch has a text |
| Invariant.EntriesAreCanonical | packages/core/vectors.py:114-128 | with any part of the vectors cached, the entries written are those a full embedding gives |
| Invariant.IndexBlobKeeps | packages/core/vectors.py:89-129 | indexing keeps the invariant under every fault, and when it returns every chunk is searchable |
| Invariant.HoldingKeeps | packages/core/repositories.py:222-228 | possession may be added once the blob has its text rows |
| Invariant.UpsertFileKeeps | packages/core/repositories.py:399-430 | a live row may name bytes its owner possesses, or none if it failed |
| Invariant.SoftDeleteKeeps | packages/core/repositories.py:458-468 | a soft delete keeps the invariant |
| Invariant.UnreferenceKeeps | packages/core/sync.py:219-228 | dropping vectors and possession of an unreferenced blob keeps the invariant |
| Reachable.StepKeeps | packages/core/sync.py:104-228 | every operation, failing or crashing anywhere inside an object step, a reap or a removal, keeps the invariant |
| Reachable.PlayKeeps | packages/core/sync.py:67-92 | so does every history of any users |
| Reachable.TextCacheTransparent | packages/core/sync.py:190-209 | after any history with crashes between or inside the writes, the branches return extract-then-chunk whenever that succeeds; an unsupported name gets it too exactly when the blob is marked |
| Reachable.CollectionsHoldOwnVectors | packages/core/vectors.py:119-128 | a collection only ever holds its owner's entries with the vector of their own text |
| Reachable.HeldBytesAreAttributed | packages/core/sync.py:130-145 | a new name for bytes already possessed costs one row and embeds nothing |
| Vectors.StepVectors | packages/core/sync.py:104-228 | one operation of anybody: bytes newly possessed have every vector, bytes still possessed keep theirs, except in the one crash that drops them all |
| Vectors.VectorsExactly | packages/core/sync.py:222-227 | over any history possessed bytes have all their vectors, or none if and only if a dying removal dropped them and they have been possessed ever since |
| Vectors.LiveMeansSearchable | packages/core/sync.py:132-163 | after any history a live row with a hash has possession and text behind it; each chunk has its own vector in the owner's collection and resolves to itself, exactly unless a dying removal has lost them |
| Vectors.LiveMeansSearchableUnless | packages/core/sync.py:212-228 | so live means searchable if no removal dies between its two deletions |
| Crashes.RemovalCrashExactly | packages/core/sync.py:222-227 | a crash in a removal makes possessed bytes unfindable if and only if it fell between dropping vectors and dropping possession, for the last name of possessed bytes that have chunks |
| Crashes.HeldEntriesStay | packages/core/sync.py:132-145 | while its owner possesses the bytes an entry of a collection stays what it is or goes for good, through any history of any users under any version |
| Crashes.LossLasts | packages/core/sync.py:132-145 | a vector lost that way stays away through any history of any users for as long as its owner possesses the bytes |
| Crashes.LastNameHeals | packages/core/sync.py:219-228 | removing or reaping the last name of such bytes makes all that is possessed findable again |
| Crashes.OneSyncGetsThere | packages/core/sync.py:104-170 | one sync on an empty platform reaches a state in which that crash does harm |
| Crashes.CrashInRemovalLosesVectors | packages/core/sync.py:222-227 | after such a crash the next sync leaves a live indexed file that no search finds; a removal of that name and one more sync bring every vector back |
| Crashes.CrashMakesTheReplyMislead | services/api/app/api/datasource_routes.py:250-261 | after such a crash and a sync the removal of that name replies that other references keep the content, though no other name exists and the content has chunks |
| Unnamed.StraysExactly | packages/core/sync.py:79-92 | where all that a user possesses is named, an operation leaves bytes possessed without a live name if and only if it takes their last name by an edit, a failed fetch or a crash, or dies between possessing and naming them |
| Unnamed.NamesAccountExactly | packages/core/repositories.py:399-430 | over any history every possessed blob has a live name at every moment if and only if no operation does that |
| Unnamed.HeldIsStoredExactly | packages/core/sync.py:130-145 | bytes already possessed are stored again whenever they are downloaded again, whatever fails |
| Unnamed.EditKeepsTheOldText | packages/core/sync.py:154-164 | a history: sync, edit and sync, remove; no name is left, and the first version is still readable and has all its vectors |
| Versions.MarkCrashExactly | packages/core/sync.py:193-208 | after a crash between the mark and the chunk rows a step gets the new chunks if and only if there were no rows before, or the very same |
| Versions.MarkedTextLasts | packages/core/sync.py:193-202 | under one version a marked blob keeps its rows through any history; without rows it keeps its stored text and can only get that text's chunks |
| Versions.MarkedRowsLast | packages/core/sync.py:193-196 | the chunk rows of a marked blob never change again under that version |
| Versions.CrashAfterMarkServesOldChunks | packages/core/sync.py:193-208 | a history that gets there: a sync under an older version, then the crash; from then on every step on the bytes is served the old chunks |
| Versions.ChunkingBumpExactly | packages/core/textstore.py:3-6 | after a bump of the chunking version, and any history since, bytes extracted before are served their new chunks if and only if they had no rows or the two splitters agree on their text |
| Versions.ChunkingBumpIsIgnored | packages/core/sync.py:193-196 | one sync before the bump is enough for the old chunks to be served ever after |
| Versions.HeldVectorsKeepTheirModel | packages/core/sync.py:132-145 | after a change of model and any history since, every vector of bytes possessed throughout is the old model's |
| Isolation.SyncSeen | packages/core/sync.py:79-170 | one object step moves its user's view by a verdict computed from that view and two bits of the shared tables, and moves no other view |
| Isolation.IndexResult | packages/core/vectors.py:89-129 | one indexing raises exactly when there are chunks and a vector is missing that cannot be made or cached, or the collection cannot be written; otherwise its two counters add up to the chunks |
| Isolation.CrashSeen | packages/core/sync.py:104-170 | so does a crash inside the step |
| Isolation.ReapSeen | packages/core/sync.py:212-228 | a reap or a removal moves only its user's view, as a function of that view |
| Isolation.CrashReapSeen | packages/core/sync.py:222-227 | so does a crash in the middle of one |
| NonInterference.StepUnseen | packages/core/sync.py:104-170 | no operation of one user changes another user's rows, possession or collection |
| NonInterference.SameViewsStaySame | packages/core/sync.py:104-170 | two platforms that agree on such a user go on agreeing, one running everybody's operations and the other only the user's |
| NonInterference.ResolvedTextSeen | packages/core/repositories.py:263-298 | the text a user can resolve is a function of the user's view |
| NonInterference.NonInterference | packages/core/sync.py:104-170 | for every interleaving of all users' steps, failures and crashes, in object steps, reaps and removals, a user whose own steps use supported names and meet no failing embedding or cache call has the rows, possession, collection, readable text and run receipts of running alone |
| NonInterference.StepAgreesExactly | packages/core/sync.py:121-163 | one step keeps two platforms in agreement on its user if and only if they agree on whether a text is ready and, when embedding or caching fails, on whether a call must be made |
| NonInterference.UnsupportedNameShowsTheCache | packages/core/sync.py:193-207 | counterexample: an unsupported name is indexed or fails depending on another user's earlier sync |
| EmbedOnce.CacheIsInvisible | packages/core/vectors.py:100-129 | indexing with any partly filled cache ends with the collection of an empty one |
| EmbedOnce.StepGrows | packages/core/repositories.py:363-380 | the cache grows by exactly what a step paid for, unless it stopped between the call and the cache; the counter shows what was cached unless the step failed or died later |
| EmbedOnce.CachedExactly | packages/core/vectors.py:100-112 | a vector is cached exactly when it was at the start or some step paid for it and lived to cache it |
| EmbedOnce.PaidExactly | packages/core/vectors.py:100-112 | a step pays for a chunk if and only if it needs the vector, it was not cached at the start, and every earlier step that paid for it stopped before caching it |
| EmbedOnce.PaidAgainExactly | packages/core/vectors.py:105-112 | when a chunk paid for once is paid for again, exactly: the step that paid, and all that paid in between, stopped before caching it |
| EmbedOnce.LostCallsArePaidAgain | packages/core/vectors.py:105-107 | a history that pays twice: a worker dies between the call and the cache, and the next sync of the object embeds every chunk again |
| EmbedOnce.EmbedOnceEver | packages/core/vectors.py:103-112 | over a history in which no step stops between the embedding call and the cache, no chunk is paid for twice under one version |
| EmbedOnce.BillIsCovered | packages/core/repositories.py:603-620 | calls made = cache rows gained + calls lost; the summed chunks_embedded never exceed the rows gained and fall short exactly when some step failed or died after caching |
| Removal.OneMoreName | packages/core/sync.py:219-228 | one more removal, by hand or by reap, is one more name in the removed set |
| Removal.OrderIsIrrelevant | services/api/app/api/datasource_routes.py:246-256 | any order and any mix of removals and reaps of a set of names ends in the same tables |
| Removal.LastReferenceInAnyOrder | packages/core/repositories.py:471-485 | of all a user's names for a blob only the last removal drops vectors, and drops all of them; content and other users are untouched |
| Removal.EveryChunkIsDropped | packages/core/vectors.py:132-143 | the vectors dropped of a possessed blob that has its vectors are one for each chunk |
| Removal.RetainedExactly | services/api/app/api/datasource_routes.py:250-261 | in any state the reply says retained if and only if another live name references the content or the collection has no entry of it; the count is 0 or all of them |
| Removal.RetainedOverHistory | services/api/app/api/datasource_routes.py:250-261 | over any history the flag is true without another name exactly for content without chunks and after a removal that died halfway |
| Runs.SyncRow | packages/core/sync.py:79-98 | what each outcome leaves in the row: nothing, the hash of the downloaded bytes, or a failure without a hash |
| Runs.MirrorAfterRun | packages/core/sync.py:67-101 | if fingerprints do not lie and the source is still, every listed key ends with a live row that has the source's hash or is failed without one, and no live row of the directory is unlisted |
| Runs.CountersConserved | packages/core/sync.py:64-98 | at every loop boundary seen = new + skipped + failed, and embedded + reused is the chunk count of the objects counted new |
| Runs.RunVerdict | packages/core/sync.py:94-101 | a listed run ends succeeded exactly when every object was new or skipped, else partial; files_deleted counts the rows the reap changed |
| Runs.CleanRunSettles | packages/core/sync.py:115-119 | after a run without failures every listed object matches its row |
| Runs.ResyncIsNoOp | packages/core/sync.py:67-101 | after a succeeded run a second one over the same listing changes no table, downloads and embeds nothing and skips every object |
| Engine.Platform.TextChunksFor | packages/core/sync.py:190-209 | the imperative branches compute TextChunks |
| Engine.Platform.PutCachedVectors | packages/core/repositories.py:363-380 | the loop of inserts never overwrites a cached vector and adds all others |
| Engine.Platform.EmbedMissing | packages/core/vectors.py:100-117 | the vectors of all chunks, from the cache or newly made and cached, or the fault that struck |
| Engine.Platform.IndexBlobForUser | packages/core/vectors.py:89-129 | cache and collection end as IndexBlob says, with its counters or its fault |
| Engine.Platform.ProcessObject | packages/core/sync.py:104-170 | tables, result and counters of the whole ladder, exceptions leaving what was committed |
| Engine.Platform.IngestBytes | packages/core/sync.py:121-163 | the ladder from the hash on |
| Engine.Platform.AttachObject | packages/core/sync.py:132-170 | rungs 2 and 3: a row alone, or vectors, possession and row |
| Engine.Platform.VisitOne | packages/core/sync.py:73-92 | one object and its handler, up to an error in the handler itself |
| Engine.Platform.SyncObjects | packages/core/sync.py:67-92 | the loop of run_sync: tables and counters of all visits, the failure count and the keys seen, or those of the point at which an error leaves it |
| Engine.Platform.ReapOne | packages/core/sync.py:219-228 | one row of the reap and the number of vectors it dropped |
| Engine.Platform.ReapDeleted | packages/core/sync.py:212-228 | the reap removes exactly the directory's live rows that were not listed, in whatever order; an error leaves some of them gone and at most one half gone |
| Engine.Platform.RemoveOne | services/api/app/api/datasource_routes.py:237-261 | DELETE /files/{id}: 404 or the removal, and the reply |
| Engine.Platform.RunSync | packages/core/sync.py:41-101 | the whole run: failed before listing, finished with the tables, counters and state of RunListing, or left running by an error outside the per-file handler, with the tables and counters of that point |
| RunHistories.RaisingIsCrashing | packages/core/sync.py:79-92 | an object step that raises leaves what a crash at its last write would |
| RunHistories.RunIsAHistory | packages/core/sync.py:67-101 | whatever tables a run leaves, finished or not, some sequence of its user's operations ends in them |
| RunHistories.RunKeeps | packages/core/sync.py:67-101 | so every run, finished or not, keeps the invariant and moves no other user's view |
| RunTable.OldestExists | packages/core/repositories.py:566-592 | if a run is queued there is one to claim |
| RunProtocol.StepEvolves | packages/core/schema.sql:164-166 | every transaction keeps one active run a directory and moves runs only queued, running, terminal |
| RunProtocol.Safety | packages/core/repositories.py:503-662 | in every interleaving of any callers: never two active runs of a directory, no run claimed twice, no ended run active again |
| RunProtocol.CrewStaysSound | packages/core/repositories.py:566-592 | with any number of workers that go by poll_once, each worker's run is running or was failed under its hands, and no two have the same |
| RunProtocol.TerminalKeptExactly | packages/core/repositories.py:623-631 | with any number of workers, dying and restarting at will, an ended run keeps its state if and only if nobody finishes it with another state after a reclaimer failed it |
| RunProtocol.OverwritersWereReclaimed | packages/core/repositories.py:634-662 | who overwrites a failed run was reclaimed by another worker before |
| RunProtocol.TerminalIsFinal | packages/core/repositories.py:623-631 | with one worker a terminal state is never overwritten |
| RunProtocol.TwoWorkersOverwrite | packages/core/repositories.py:623-631 | counterexample: two workers that both obey poll_once overwrite one |
| SyncRuns.RunStore.InsertRun | packages/core/repositories.py:503-531 | the insert succeeds exactly when the id is new and the directory has no active run |
| SyncRuns.RunStore.GetActiveRun | packages/core/repositories.py:534-542 | an active run of the directory, or none exists |
| SyncRuns.RunStore.ClaimNextRun | packages/core/repositories.py:566-592 | an oldest queued run becomes running with a heartbeat, or none is queued |
| SyncRuns.RunStore.HeartbeatRun | packages/core/repositories.py:595-600 | the heartbeat moves only while the run is running |
| SyncRuns.RunStore.FinishRun | packages/core/repositories.py:623-631 | the state is written without a guard |
| SyncRuns.RunStore.ReclaimDeadRuns | packages/core/repositories.py:634-662 | the loop fails exactly the running runs whose heartbeat is stale |
| SyncRuns.RunStore.EnqueueRun | packages/core/repositories.py:503-531 | under any interference: created means one run of this call was inserted; in flight means none was and the reply was active during the call; raising means none was and three different runs held the slot during the call |
| Heartbeat.AgeBound | packages/core/sync.py:67-98 | heartbeat age never exceeds max(L, 5T) + R |
| Heartbeat.NeverReclaimed | packages/core/repositories.py:634-647 | within the timeout, a reclaimer that strikes at any moment leaves the working run alone |
| Heartbeat.ReclaimedExactlyBeyond | packages/core/config.py:47 | the bound is exact: a working run can be failed if and only if max(L, 5T) + R exceeds the timeout |
| WorkedRun.Interlude | packages/core/repositories.py:634-662 | others' transactions during one phase leave the worked run's row as it is |
| WorkedRun.Work | packages/core/sync.py:67-101 | run_sync's heartbeats with everybody else at work in between, finished or left in any phase: the run is running at every moment until the worker ends it, and keeps running with the heartbeat of the phase if the worker leaves it |
| WorkedRun.DroppedRunIsReclaimed | packages/core/repositories.py:634-662 | a run dropped by its worker stays running until its heartbeat is older than the timeout; the first reclaimer after that fails it and frees the directory |
| Migration.KeeperExists | packages/core/db.py:52-59 | every identity has an oldest row |
| Migration.Database.FindDuplicates | packages/core/db.py:50-63 | the remap holds exactly the rows that are not their group's oldest, each with that oldest |
| Migration.Database.FoldOne | packages/core/db.py:67-79 | the four statements for one dead row, or the first one raising on UNIQUE(user, datasource, path) |
| Migration.Database.FoldAll | packages/core/db.py:67-79 | the loop repoints every table along the remap, and stops only on a clash |
| Migration.Database.Dedupe | packages/core/db.py:37-81 | it fails exactly when two directories clash, leaving everything; otherwise constraints hold, every reference names a survivor and files are those of folding the dead rows in their order |
| Migration.FilesFollow | packages/core/db.py:72-78 | UPDATE OR IGNORE then DELETE: every row is an old one sent along the remap, every name is still taken, rows of a survivor never give way, names stay unique |
| Migration.CollisionIsClash | packages/core/db.py:68-71 | an UPDATE of directories that collides shows two clashing directories, and one that does not keeps them unique |
| Migration.ClashExactly | packages/core/db.py:68-71 | two directories clash exactly when one user has one path under two datasources of one identity |
| Migration.MeaningPreserved | packages/core/db.py:37-81 | afterwards identities are unique, each keeps its oldest row, and the (user, identity, key) names of files are the ones before |
| Migration.StaysExactly | packages/core/db.py:72-78 | of the rows that end up with one name the one whose datasource's turn comes first stays, a survivor's being the first of all |
| Migration.LiveNamesExactly | packages/core/db.py:72-78 | a (user, identity, key) name is live afterwards if and only if the first of its rows is live; it vanishes if that row is soft-deleted |
| Migration.LiveFileIsHidden | packages/core/db.py:72-78 | a tenant whose file vanishes: two datasources of one identity, the older one's row of the key soft-deleted, the younger one's live |
| Migration.SurvivorDecides | packages/core/db.py:72-78 | if the survivor has a row of the name, that row alone decides |
| Migration.SecondPassChangesNothing | packages/core/db.py:63-65 | a second pass folds nothing and leaves the tables as they are |
| Migration.RemapIsUnique | packages/core/db.py:50-63 | the remap is determined by the datasources |
| Sorting.SortIsOrdered | services/api/app/rag/retrieval/user_scoped.py:99-100 | the sort is by falling score, ties in their old order |
| Fusion.Rrf | services/api/app/rag/retrieval/user_scoped.py:89-100 | the nested loops over scored and seen compute Fused: reciprocal-rank sums, first hit of each id, stable order |
| Fusion.FirstHitIsFirst | services/api/app/rag/retrieval/user_scoped.py:97-100 | a fused chunk is shown by the first hit that named it |
| Fusion.FusionIsTheUnion | services/api/app/rag/retrieval/user_scoped.py:89-100 | each id of the union exactly once |
| Fusion.OrderExactly | services/api/app/rag/retrieval/user_scoped.py:99-100 | one chunk precedes another if and only if its score is higher, or equal and it was seen first |
| Fusion.DominatorComesFirst | services/api/app/rag/retrieval/user_scoped.py:89-100 | a chunk never behind another in any ranking precedes it |
| Fusion.BothBeatOne | services/api/app/rag/retrieval/user_scoped.py:37 | with at most 61 entries a side every chunk in both precedes every chunk in one |
| Fusion.BothFirstExactly | services/api/app/rag/retrieval/user_scoped.py:97 | with m and n entries a side that holds for all rankings if and only if 1/(60+m) + 1/(60+n) > 1/61 |
| Fusion.OneMentionWins | services/api/app/rag/retrieval/user_scoped.py:97 | for every other pair of lengths, rankings in which a chunk found once precedes one found twice |
| Fusion.SixtyOneIsTheLast | services/api/app/rag/retrieval/user_scoped.py:37 | at equal lengths the condition means at most 61 |
| Retrieval.ChunkIdRoundTrip | packages/core/vectors.py:77-78 | a chunk id parses back to its hash and ordinal |
| Retrieval.ChunkIdInjective | packages/core/vectors.py:77-78 | different chunks have different ids |
| Retrieval.GetChunkTexts | packages/core/repositories.py:263-298 | in batches of 400, exactly the texts of asked-for chunks that the user possesses, under their canonical ids |
| Retrieval.AnswerIsUnique | packages/core/repositories.py:280-298 | batching and row order do not show |
| Documents.GetAttribution | packages/core/repositories.py:318-342 | a name is given for exactly the hashes with a live row of the user, and it is a first one by key |
| Documents.ToDocuments | services/api/app/rag/retrieval/user_scoped.py:122-157 | one document for each hit that resolves to text, in order, with that text and the attributed name or "unknown" |
| Documents.OnlyPossessedText | services/api/app/rag/retrieval/user_scoped.py:122-140 | whatever the hits, every document holds text of bytes the user possesses now |
| Documents.HitsReadWhatWasEmbedded | packages/core/vectors.py:119-128 | in every reachable state a vector hit reads back the text that was embedded if the bytes are possessed, else nothing |
| SparseCache.Indexes.SparseIndex | services/api/app/rag/retrieval/user_scoped.py:50-65 | the rows of the index in force, its index, and what is cached afterwards |
| SparseCache.Indexes.SparseHits | services/api/app/rag/retrieval/user_scoped.py:68-83 | the hits of the index in force, cut at k and at score zero |
| SparseCache.BestHits | services/api/app/rag/retrieval/user_scoped.py:73-83 | hits are distinct, positive and falling, and a row with a positive score is left out only for k at least as good |
| SparseCache.Indexes.Retrieve | services/api/app/rag/retrieval/user_scoped.py:106-119 | the three kinds of search, 2k a side for hybrid, resolved to documents of possessed text |
| SparseCache.HybridPrefersBoth | services/api/app/rag/retrieval/user_scoped.py:110-115 | for k up to 30 a hybrid search ranks chunks found by both sides above chunks found by one |
| SparseCache.IndexInForceExactly | services/api/app/rag/retrieval/user_scoped.py:50-65 | over any history the index in force is the rebuild exactly when the counts differ or the same blobs have chunks; always, if one of the two states indexes no blob that the other lacks |
| SparseCache.RowsMention | packages/core/repositories.py:301-315 | the rows of a user are of exactly the held blobs that have chunks |
| StaleIndex.SwapIsNotSeen | services/api/app/rag/retrieval/user_scoped.py:53-55 | a history from an empty platform: sync, search, remove, sync another document of as many chunks; the index in force is the old one, nothing it names is readable and the new document is not in it |
| Json.DumpsIsPrintable | services/api/app/rag/routes.py:27-29 | printed JSON holds only characters from space to tilde, so no line break |
| Json.StringRoundTrip | services/api/app/rag/routes.py:27-29 | a printed string, surrogate pairs included, reads back as itself |
| JsonReader.DumpsRoundTrip | apps/web/src/api.ts:199 | every printed value is parsed back, whole |
| Frames.SplitIncrementally | apps/web/src/api.ts:189-194 | splitting what arrives onto the carried part is splitting the whole stream |
| Frames.SplitParts | apps/web/src/api.ts:193-194 | no part holds a blank line and joining the parts gives the stream |
| Frames.StreamChat | apps/web/src/api.ts:184-204 | for any stream and any cut, the frames delivered are those of the whole stream and the buffer is its last part |
| Frames.DeliverParts | apps/web/src/api.ts:195-203 | one callback for each data frame that parses, in order |
| Frames.FrameIsOnePart | services/api/app/rag/routes.py:27-29 | a printed frame is one part |
| Frames.RoundTrip | apps/web/src/api.ts:184-204 | printed payloads, however cut, are delivered exactly and in order, read back by the client's own reader, with nothing carried over |
| Frames.CutShort | apps/web/src/api.ts:184-204 | a stream that stops inside a frame delivers the frames before it and keeps the rest |
| Answers.EventStream | services/api/app/rag/routes.py:85-128 | the frames of one answer and the turns appended, for a failed agent, a complete and a broken synthesis |
| Answers.DoneIsLastAndOnly | services/api/app/rag/routes.py:98-128 | exactly one done frame, the last, for an answer and for a failed agent |
| Answers.ScreenShowsTheAnswer | apps/web/src/App.tsx:460-470 | end to end, whatever the cuts: a complete answer is on screen as its tokens, a broken one and a failed agent as their error |
| Answers.ScreenAndMemoryExactly | apps/web/src/App.tsx:465-466 | the kept assistant turn says what the screen says if and only if the answer was complete (or its text is its own error message) |
| Answers.OnlyCompleteAnswersAreKept | services/api/app/rag/routes.py:118-126 | an assistant turn means a complete answer if and only if no answer with a session broke off after some text |
| Policy.PathRoundTrip | packages/core/policy.py:21-30 | a normalised path is determined by its names |
| Policy.PrefixIsByComponent | packages/core/policy.py:24-25 | string prefix on closed paths is prefix by component |
| Policy.RegistrableExactly | packages/core/policy.py:45-53 | a path may be registered exactly when an allowed prefix's names lead its own, or nothing is restricted |
| Policy.BrowsableExactly | packages/core/policy.py:56-65 | a path may be browsed exactly when it is inside an allowed prefix or on the way to one; registrable implies browsable |
| Policy.RestrictsExactly | packages/core/policy.py:33-42 | a policy restricts nothing exactly when all its parts are blank |
| Policy.NormaliseFixed | packages/core/policy.py:21-30 | normalising again changes nothing exactly when no whitespace leads |
| Policy.AncestorsAreBrowsable | packages/core/policy.py:56-65 | every leading part of an allowed prefix may be browsed, and the prefix registered, with a slash in front, and without one if no whitespace leads |
| Policy.SpacedPrefixExactly | packages/core/policy.py:21-65 | an allowed prefix that whitespace leads can never be registered as it stands, and can be browsed if and only if it only repeats the whitespace and slashes that normalising takes off its front |
| Policy.DefaultAllowed | packages/core/policy.py:16-42 | the default policy gives a tenant both libraries and one private prefix |
| Policy.PrivateIsPrivate | packages/core/policy.py:16-18 | under it nobody but its owner may register or browse a path inside a private prefix |
| Scope.ListObjects | packages/core/storage/s3.py:98-121 | the keys under the prefix, placeholders dropped, in order |
| Scope.SamePrefixExactly | packages/core/storage/s3.py:132-141 | the provider's and the policy's normal forms agree exactly on paths without whitespace at their ends |
| Scope.ListsInScopeExactly | packages/core/storage/s3.py:98-121 | whatever the bucket holds a listing stays in scope if and only if its prefix does |
| Scope.RegisteredStaysInScope | services/api/app/api/datasource_routes.py:165-184 | a registrable path lists keys in scope only, if and only if the prefix S3 lists it by is under an allowed one, as it is without whitespace at the path's ends |
| Scope.PrivateKeysStayUnlisted | packages/core/sync.py:57-58 | under the default policy no path another tenant may register lists a key of a private prefix |
| Scope.SpaceEscapesTheScope | packages/core/storage/s3.py:132-141 | counterexample: a registrable path with a leading space |
| Scope.Browse | services/api/app/api/datasource_routes.py:117-159 | 403 exactly out of scope; child directories filtered, own files only inside scope, 200 of them and a flag |
| Scope.PageIsInScope | services/api/app/api/datasource_routes.py:140-158 | the files shown are exactly the path's own listed keys; they are in scope if the prefix they are listed by is, as it is for a registrable path without whitespace at its ends |
| Scope.EveryPrefixIsReachable | services/api/app/api/datasource_routes.py:125-139 | from the root each part of the way to an allowed prefix that holds a key may be browsed, with a slash in front, and has the next part among its children; without whitespace in front the next part is shown and opens as shown |
| Scope.SpacedPrefixIsUnreachable | packages/core/policy.py:21-65 | counterexample to the latter for a policy part with whitespace after its slash: the prefix it gives can be neither registered nor browsed as shown |
| Scope.Registry.Register | services/api/app/api/datasource_routes.py:165-184 | 403 exactly out of scope; a second registration returns the first row and created = false |
| Scope.Registry.ListRegistered | packages/core/sync.py:57-58 | every key a run over a registered path sees is in its owner's scope if the prefix listed is, as it is for a path without whitespace at its ends |

## Left out

- S3, Chroma, SQLite and HTTP clients: maps and sequences with the stated constraints stand for them; pagination, retries and connections do not appear.
- The text splitter, SHA-256, the embedding model and BM25 scoring are parameters; nearest-neighbour search is an arbitrary list of hits.
- Language-model nodes, prompts, query rewriting, tokens and login, the React interface and seeding do not appear.
- Directory status: it is written in transactions of its own and follows the run only loosely, so nothing is claimed of it.
- The user-id check of collection names does not appear.
- Version constants are fixed within one `Env`; only `Versions` looks across a version bump.
- Floating-point rounding of fusion scores: scores are exact rationals.
- Case folding and digits are ASCII; Unicode digits in a chunk id are taken as malformed.
- JSON numbers are integers, read exactly; the byte decoder of the browser is taken to be one that joins chunks correctly.
- Chat memory's window and the agent graph: only the turns one answer appends are modelled.
- A provider failure while browsing (a 502) does not appear.
- Directory listings are sets, and attribution is looked up hash by hash instead of in batches of 400.
- Run rows carry no user: a directory has one owner. Foreign keys are taken for granted.
- poll_once: its order of reclaim, claim and run is a constraint on each worker's moves, not a method.
- SyncRuns.RunStore.EnqueueRun: the run returned with created = true is whatever is active at the read-back, which under interference can be none or a later run; the contract says no more than that.
