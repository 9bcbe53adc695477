# A verified model of the agent platform's protocols

These modules model the parts of the platform whose correctness does not show in any single function: the idempotent
tool-call protocol, the background-job queue, the reconciliation of MCP catalogs, the text chunker, the JSON limit check
and its validator cache, the secret re-encryption sweep, the argument summary and the connection pools. Each is stated
as the TypeScript code has it, including its error paths, and what it promises is proved for all inputs, all runs or all
reachable states. `dafny verify dfyconfig.toml` checks the whole project.

## How the modules fit together

| modules | what they hold |
|---|---|
| `Prelude`, `Text`, `Chunking`, `ChunkingTheorems`, `ChunkingCoverage` | shared types; UTF-16 strings; the chunker as a loop; tiling, reconstruction, overlap, window count, coverage; where the chunks stand in the input |
| `Limits`, `ToolCalls`, `ToolCallTheorems`, `ToolCallLogs`, `ToolCallBudgets`, `ToolCallExamples`, `ToolCallStore` | the tool-call protocol as atomic steps of any number of invocations; its invariant; its event log; its budgets; runs that show what it does not promise; the code itself as methods over the tables |
| `Backoff`, `KnowledgeChunks`, `Jobs`, `JobTheorems`, `JobStore` | the retry delay; the table of stored chunks and the statements that replace them; the queue as atomic steps of any number of workers; its invariant; the code itself as methods over the tables |
| `Discovery`, `Catalog`, `CatalogStore` | paged listing; upsert and disable passes with their closed form and history; the whole sync of one server |
| `JsonLimits`, `JsonText`, `ValidatorCache`, `ToolSchemas` | the stack traversal against a recursive specification; the serialised text and its length in UTF-8; the bounded cache; when a stored hash identifies the stored schemas |
| `Secrets`, `Rotation`, `RotationSweep` | symbolic envelopes; the database beside what the application's writes alone would have left; the sweep |
| `Summaries` | the redacting summary |
| `Pools` | the budget the pools share; the session a checkout hands out |

The protocols (`ToolCalls`, `Jobs`) are state machines whose steps are single statements or transactions of the code. A
write can be acknowledged, rejected, or take effect while its caller sees an error (`Lost`), and any invocation or worker
can crash between two steps. `ToolCallStore` and `JobStore` hold the code as methods over mutable tables. They prove that whatever the
code does is a run of these machines, so that the theorems about all runs apply to it, and what exactly it leaves in the
tables for every way its writes can end.

## What the proofs found

- A chunk window can be `size + 1` units long, exactly when a boundary starts at its hard end (`OverlongWindow`).
- The chunker keeps its overlap exactly, in every text, iff `overlap <= floor(3 * size / 5) + 1`; above that the progress
  guard cuts it short (`OverlapExactIff`).
- A tool call whose success was stored can still end as `failed`, because the catch block rewrites the row whenever later
  bookkeeping throws (`StoredSuccessOverwritten`). A stored completion is final iff the invocation that stored it is over,
  by returning, throwing or crashing (`CompletedFinalIff`), and so is a logged one, as long as row and log agree
  (`LoggedCompletionFinalIff`). The log holds both outcomes iff the append of the completion took effect but reported an
  error and the catch block then logged the failure (`BothOutcomesIff`). An error the remote tool reports is logged twice
  iff both appends take effect (`FailureLoggedTwiceIff`), as they do when nothing goes wrong besides
  (`RemoteErrorLoggedTwice`).
- The lock timeout of the job queue never decides a claim (`LockTimeoutNeverMatters`), so a running job that no worker has
  in its batch stays `running` for ever (`OrphanedForever`). A job gets there iff its worker crashes, its worker gives up
  the batch because a job could not be given back, or a claim takes effect but reports an error (`OrphanedIff`). The
  finishing updates, filtered by id only, equal guarded ones except that a completion which took effect but reported an
  error is undone by the worker's own catch block (`FinishingUpdatesAreGuardedIff`, `SettledTouchedIff`,
  `LostCompletionIsRequeued`).
- A column that a server stops mentioning keeps its old value (`DroppedColumnsStay`). A tool that drops its output schema
  therefore keeps the old schema beside a hash computed without it (`StoredHashHonestIff`), and two such tools can be given
  each other's validators by the cache (`DroppedSchemasCollide`), which is otherwise invisible (`HonestRowsNeverSeeTheCache`).
- The sweep opens the arguments of an external approval, one without a run, in a context the application does not use for
  it. Such an approval sealed under an older key stops the sweep (`ApplicationEnvelopeBlocksIff`); one in the old envelope
  version is resealed in a context the application cannot open (`ResealedReadsSameIff`). Everything else keeps its reading.
- The argument summary is idempotent, and its strings at most 160 units long, iff it shows no value such as a function or a
  big integer whose text is longer than that (`SummaryTwiceIff`, `SummaryStringsShortIff`); JSON has none (`JsonSummary`).

## Assumptions

- One clock; digests are injective (a digest is an uninterpreted value that determines what it was computed from).
- A transaction is atomic, `FOR UPDATE` excludes other holders of the same run row, and `SKIP LOCKED` leaves out an
  arbitrary set of rows. The rows of a run in `mcp_tool_calls` come only from `reserveCall`.
- `background_jobs` is written only by `src/ai/jobs/service.ts` and by the cancel route; the extracted text of a document
  does not change.
- Organisation filters are left out: the entities of one organisation are modelled.
- An update given `undefined` for a column leaves the column out of its `SET` list, as drizzle-orm does; an insert stores
  null. A descriptor's `columns` are those that have a value.
- `0.6 * size` is compared as a rational number, and `Math.random` returns a real number in [0, 1).
- Envelopes are symbolic: they open under exactly the key they were sealed with and, in version 2, the context. A row's organisation, run and
  approval id never change. The application's writes are arbitrary otherwise.
- The access context that `prepare` reads is an input of `Connect`; statements outside a transaction block take effect at
  once.
- Compiling a schema is a function of the schema. Which names are sensitive is an arbitrary predicate.

## Model

| member | source | states |
|---|---|---|
| `Chunking.ChunkText` | src/ai/rag/chunk.ts:2-19 | illegal options are refused and nothing else is; otherwise the loop yields exactly the chunks of the window specification |
| `Chunking.WindowEnd` | src/ai/rag/chunk.ts:9-12 | a window ends just after the last boundary beyond sixty percent of it, if there is one up to and including its hard end, else at the hard end |
| `ChunkingTheorems.WindowsTile` | src/ai/rag/chunk.ts:8-17 | windows start at 0, end at the text's end, strictly advance, leave no gap and never end before their predecessor |
| `ChunkingTheorems.WindowsReassembleText` | src/ai/rag/chunk.ts:8-17 | laid down one after the other without their overlaps, the windows spell out the text |
| `ChunkingTheorems.OverlongWindow` | src/ai/rag/chunk.ts:9-12 | a window is at most size + 1 long, and that long iff a boundary starts at its hard end |
| `ChunkingTheorems.OverlapExactIff` | src/ai/rag/chunk.ts:12-16 | neighbouring windows of every text share exactly `overlap` units iff overlap <= 3 * size / 5 + 1 |
| `ChunkingTheorems.ShortOverlap` | src/ai/rag/chunk.ts:12-16 | for every larger overlap there is a text in which the guard binds |
| `ChunkingTheorems.WindowCount` | src/ai/rag/chunk.ts:8-17 | never more windows than units; with an overlap within the limit the count is linear in the length |
| `ChunkingTheorems.ChunksCoverText` | src/ai/rag/chunk.ts:5-18 | chunks are numbered from 0, each is the trimmed text between its offsets, every unit but white space lies in one, the first starts at 0 and the last ends at the end |
| `ChunkingCoverage.ChunksHoldTheInput` | src/ai/rag/chunk.ts:5-18 | every chunk's text stands in the newline-normalized input, at places that never go back, and every unit of the input that is not white space lies in a chunk's text |
| `Text.TrimCuts` | src/ai/rag/chunk.ts:5-13 | trimming yields a slice, with nothing but white space before and behind it and none at its ends |
| `Text.CrLfBecomesLf` | src/ai/rag/chunk.ts:5 | a carriage return and line feed becomes a line feed wherever it stands, and both sides are treated for themselves |
| `Text.NoCrLfStays` | src/ai/rag/chunk.ts:5 | text without that pair is left alone |
| `Text.InkKept` | src/ai/rag/chunk.ts:5 | normalizing line ends loses and moves nothing but white space |
| `Chunking.BoundaryUnits` | src/ai/rag/chunk.ts:10 | a boundary is two line feeds, a full stop and a space, or an Arabic question mark and a space |
| `Limits.IntegerEnv` | src/lib/ai-sdk/limits.ts:1-5 | the fallback for what is no number, the bounds for numbers outside them, and the number rounded down between them |
| `Limits.MaxTotalToolCallsPerRun` | src/lib/ai-sdk/limits.ts:11-13 | 12 where the environment holds no number, 1 below 1, 32 from 33 up, and the number rounded down between |
| `ToolCallTheorems.StepKeepsInv` | src/ai/mcp/execution.ts:79-252 | every step of every invocation keeps: locks held exactly inside transactions, admitted keys still free and within budget, rows owned by their creator, progress consistent with status and remote calls |
| `ToolCallTheorems.RunKeepsInv` | src/ai/mcp/execution.ts:79-252 | so does every run |
| `ToolCallTheorems.RemoteCalledAtMostOnce` | src/ai/mcp/execution.ts:79-130 | over all interleavings, failures and crashes the remote tool is called at most once per key, only after its row exists, and a completed row implies it was called |
| `ToolCallTheorems.AnyInvocationCanCrash` | src/ai/mcp/execution.ts:79-265 | the model lets every invocation crash between any two steps; a crash changes no table and gives the run's lock back |
| `ToolCallTheorems.LaterInvocationsOnlyObserve` | src/ai/mcp/execution.ts:87-97 | an invocation that did not create the row changes no row, no log of the key and nothing remote; it ends with the stored status for the same digest and with a conflict for another |
| `ToolCallLogs.EventsOfACall` | src/ai/mcp/execution.ts:183-252 | over all runs a call's events are one of six lists, and which of the longer ones it is depends on whether an outcome was logged on the way into the catch block and whether the catch block logged again |
| `ToolCallTheorems.FrozenOnceOver` | src/ai/mcp/execution.ts:202-252 | once the invocation that created a row is over, row and log never change again |
| `ToolCallTheorems.CompletedFinalIff` | src/ai/mcp/execution.ts:202-247 | a completed row stays completed in every continuation iff the invocation that created it is over |
| `ToolCallLogs.LoggedCompletionFinalIff` | src/ai/mcp/execution.ts:202-252 | with a completion logged, row and log stay completed and closed in every continuation iff they are so now and the invocation is over |
| `ToolCallLogs.CompletedForever` | src/ai/mcp/execution.ts:202-252 | in runs that lose no append of the call's completion, a logged completion means the row is `completed` and the log closed, in every continuation |
| `ToolCallLogs.BothOutcomesIff` | src/ai/mcp/execution.ts:228-253 | over all runs a log holds both outcomes iff the completion was appended by a write that reported an error and the catch block then appended the failure |
| `ToolCallLogs.FailureLoggedTwiceIff` | src/ai/mcp/execution.ts:228-253 | over all runs a failure is logged twice iff an error the tool reported was appended in the try block and the catch block then appended the failure |
| `ToolCallExamples.LostSuccessLogsBoth` | src/ai/mcp/execution.ts:228-253 | a run whose log holds both outcomes |
| `ToolCallExamples.StoredSuccessOverwritten` | src/ai/mcp/execution.ts:204-247 | a run without trouble up to a stored completion that becomes `failed` by a rejected run step and the catch block |
| `ToolCallExamples.RemoteErrorLoggedTwice` | src/ai/mcp/execution.ts:228-253 | a run in which no write fails and a remote error is logged twice |
| `ToolCallBudgets.CommitAddsOne` | src/ai/mcp/execution.ts:117-128 | a committed reservation adds one row to the counts of its run and its tool, and to no others |
| `ToolCallBudgets.BudgetsHold` | src/ai/mcp/execution.ts:99-115 | no run ever holds more than 32 rows, nor more than the limits the invocations read, per run and per tool, failed calls included; counted over the rows themselves |
| `ToolCallBudgets.ReservationWithinItsLimit` | src/ai/mcp/execution.ts:99-128 | right after a reservation both counts are within the limits it was made with |
| `ToolCallStore.Store.CheckBudgets` | src/ai/mcp/execution.ts:99-115 | refuses exactly when a count has reached its limit, and then gives the lock back |
| `ToolCallStore.Store.ReserveCall` | src/ai/mcp/execution.ts:70-130 | the transaction is a run of the protocol, answers created, duplicate or refused exactly as run, row and counts demand (created iff admitted and committed), inserts exactly the admitted row, and leaves no lock behind |
| `ToolCallStore.Store.TryCall` | src/ai/mcp/execution.ts:190-235 | the try block is a run of the protocol; it returns iff every step succeeds and the answer is no error, and leaves exactly the remote call, status and events that follow from how each step ended |
| `ToolCallStore.Store.CatchCall` | src/ai/mcp/execution.ts:236-263 | the catch block is a run of the protocol that sets the row to `failed` and logs the failure as far as its two writes take effect |
| `ToolCallStore.Store.ExecuteIdempotent` | src/ai/mcp/execution.ts:132-265 | one invocation, whatever fails, is a run of the protocol; its outcome, its row, its events and its remote call are those its verdict and the fate of each step call for; an admitted call without trouble returns, completed and logged |
| `ToolCallStore.ReturnsIffFair` | src/ai/mcp/execution.ts:183-235 | an admitted call returns iff every write is acknowledged and the tool answers without an error |
| `ToolCallStore.AdmittedIff` | src/ai/mcp/execution.ts:85-116 | a call is admitted iff its run is known, its key new, its tool below its limit, and the run has fewer than 12 calls where the environment holds no number, otherwise fewer than 32 and, unless it has none, fewer than that number rounded down |
| `Backoff.RetryDelayMs` | src/ai/jobs/backoff.ts:1-4 | the spacing plus the random share of a fifth of it, rounded down; never 72 seconds |
| `Backoff.SpacingTable` | src/ai/jobs/backoff.ts:2 | 1, 2, 4, 8, 16 and 32 seconds after the first six attempts, a minute after every later one |
| `Backoff.SpacingDoubles` | src/ai/jobs/backoff.ts:2 | every further attempt doubles the spacing, up to a minute |
| `JobTheorems.StepKeepsInv` | src/ai/jobs/service.ts:16-73 | every step of every worker keeps status, lock and attempts of each job together, batches consistent and disjoint, claims spaced, ready documents holding their chunks |
| `JobTheorems.JobStates` | src/ai/jobs/service.ts:16-31 | in every reachable state queued jobs are unlocked with attempts left, running jobs are locked by one worker, failed jobs have used all attempts |
| `JobTheorems.ClaimsAreDisjoint` | src/ai/jobs/service.ts:18-30 | no two workers ever hold the same job, and none holds a job twice |
| `JobTheorems.LockTimeoutNeverMatters` | src/ai/jobs/service.ts:18-24 | in every reachable state the claim query without its lock clause has the same candidates, whatever the timeout |
| `JobTheorems.ClaimTakesTheFirst` | src/ai/jobs/service.ts:18-24 | a claim takes due queued jobs only, at most a batch, and leaves out a due job that no other claim has locked only for a full batch of jobs due earlier, or due at the same time and not created later |
| `JobTheorems.IdentityStays` | src/ai/jobs/service.ts:25-27 | no step changes a job's document, maximum attempts or creation time |
| `JobTheorems.FinishingUpdatesAreGuardedIff` | src/ai/jobs/service.ts:61-71 | an update filtered by id equals one guarded by status, owner and attempts iff the row is still running, which fails only for the worker's own completion |
| `JobTheorems.SettledTouchedIff` | src/ai/jobs/service.ts:61-71 | a step changes a completed, failed or cancelled job iff it gives that job back, and that happens to completed jobs only |
| `JobTheorems.SettledForever` | src/ai/jobs/service.ts:61-71 | settled jobs never change in runs that do not lose the job's completion |
| `JobTheorems.FailedForever` | src/ai/jobs/service.ts:64-71 | failed and cancelled jobs never change in any run |
| `JobTheorems.LostCompletionIsRequeued` | src/ai/jobs/service.ts:61-71 | a run from an empty queue in which a completed job is queued again |
| `JobTheorems.OrphanedForever` | src/ai/jobs/service.ts:18-24 | a running job that is in no worker's batch stays as it is in every continuation |
| `JobTheorems.AnyWorkerCanCrash` | src/ai/jobs/worker.ts:14-22 | the model lets every worker crash at any time; a crash changes no table |
| `JobTheorems.OrphanedIff` | src/ai/jobs/service.ts:16-73 | a step leaves a job running in no batch iff it already was, its worker crashes, its worker gives up its batch without having given it back, or a claim of it takes effect but reports an error |
| `JobTheorems.ExecutionsBoundedAndSpaced` | src/ai/jobs/service.ts:25-27 | a job is claimed as often as its attempts say, at most max(1, maxAttempts) times; between its k-th and next claim lie at least 1, 2, 4, 8, 16, 32 seconds for k up to 6, and a minute from then on |
| `JobTheorems.ReadyDocumentsHoldTheirChunks` | src/ai/jobs/service.ts:34-54 | in every reachable state the stored rows of a ready document are exactly the chunks of its text, each under its number, also after commits that reported an error |
| `JobTheorems.IngestingAgainChangesNothing` | src/ai/jobs/service.ts:44-52 | ingesting a ready document again changes neither table |
| `JobTheorems.OtherDocumentsUntouched` | src/ai/jobs/service.ts:45-51 | no step changes the document or the rows of a document it does not ingest |
| `KnowledgeChunks.ReplacedRows` | src/ai/jobs/service.ts:46-50 | whatever the table held, after delete and insert the rows of the document are the chunks of its text, and all other rows are as they were |
| `KnowledgeChunks.StoredRows` | src/ai/jobs/service.ts:43-50 | row by row: under its number each chunk of 1200 units and 150 overlap, with its text, a quarter of its length rounded up, and its offsets |
| `KnowledgeChunks.InsertNeverFails` | src/ai/jobs/service.ts:46-50 | the insert after the delete never violates the unique index |
| `JobStore.Store.TakeRows` | src/ai/jobs/service.ts:25-29 | exactly the chosen rows become running under the worker's lock with one attempt more, and come back as updated |
| `JobStore.Store.ClaimJobs` | src/ai/jobs/service.ts:16-32 | claiming is one claim step of the queue, and a batch comes back iff it is acknowledged |
| `JobStore.Store.ProcessDocument` | src/ai/jobs/service.ts:34-54 | fails on a missing document, a missing text or a transaction that reports an error; the statements take effect together, unless the transaction fails, and change nothing else |
| `JobStore.Store.ExecuteClaimedJob` | src/ai/jobs/service.ts:56-73 | executing a job is a run of the queue; the row and the document tables are exactly as work, finishing update and catch block leave them, and an error gets out iff giving the job back reports one |
| `JobStore.Store.Tick` | src/ai/jobs/worker.ts:14-22 | one turn of the worker's loop is a run of the queue that begins with the claim, executes the batch in order and stops early only at an error that got out; without trouble all jobs whose work can be done are completed and the others requeued or failed |
| `Discovery.CollectPages` | src/ai/mcp/client.ts:86-98 | at most 250 requests; a result is the exact concatenation of the pages of a whole listing, whose pages answer the requests in turn, each but the last with a non-empty cursor; there is none iff no such listing exists within 250 pages |
| `Discovery.NoEarlyEnd` | src/ai/mcp/client.ts:90-96 | where every answer so far has a non-empty cursor no listing has ended, and if the next request fails there is none |
| `Discovery.ItemAt` | src/ai/mcp/client.ts:92 | every item of every page stands in the result, behind those of the pages before |
| `Discovery.Discover` | src/ai/mcp/client.ts:105-143 | a kind comes back with its whole listing, or empty with its error flag, or empty and unflagged when not offered |
| `Catalog.UpsertAllClosed` | src/ai/mcp/service.ts:237-356 | closed form of the upsert loops: keys, visibility and columns, with duplicates merged in order |
| `Catalog.ReconcileClosed` | src/ai/mcp/service.ts:358-392 | a key is shown iff it was discovered and was new or already shown; a failed kind is unchanged |
| `Catalog.ReconcileTwice` | src/ai/mcp/service.ts:237-392 | the same discovery again changes nothing |
| `Catalog.DroppedColumnsStay` | src/ai/mcp/service.ts:260-273 | a column a listing no longer mentions keeps its value |
| `Catalog.ShownIff` | src/ai/mcp/service.ts:358-392 | over any history of syncs, failures and operator choices an entry exists iff it was ever listed, and is shown iff no complete listing without it and no operator hid it since some event that showed it |
| `Catalog.VanishedStaysHidden` | src/ai/mcp/service.ts:358-368 | an entry that vanished stays hidden when it reappears, until an operator shows it |
| `CatalogStore.ServerCatalog.UpsertItems` | src/ai/mcp/service.ts:237-274 | the loop computes the upserts in order |
| `CatalogStore.ServerCatalog.ReconcileIsFair` | src/ai/mcp/service.ts:361-392 | nothing is hidden because a listing was truncated: an entry that stops being shown is missing from the server's whole listing, or its kind is no longer offered |
| `CatalogStore.UnlistedVanished` | src/ai/mcp/service.ts:361-392 | what a successful discovery does not list is on none of the pages of the server's whole listing |
| `CatalogStore.ServerCatalog.Sync` | src/ai/mcp/service.ts:212-394 | all four kinds are reconciled with what the server lists, or none changes |
| `JsonLimits.AssertJsonLimits` | src/ai/mcp/validation.ts:44-67 | the stack traversal gives the verdict defined on the tree, in at most 2001 pops |
| `JsonLimits.PendingPopped` | src/ai/mcp/validation.ts:47-60 | popping a node and pushing its children takes exactly the first of the visits still due |
| `JsonLimits.VisitCount` | src/ai/mcp/validation.ts:45-60 | the traversal of a tree visits as many items as it has nodes |
| `JsonLimits.AcceptedIff` | src/ai/mcp/validation.ts:44-67 | accepted iff a JSON value with at most 2000 nodes, depth 12, strings of 65536 bytes and 524288 bytes serialised, and then the byte count is the serialisation's |
| `JsonText.BytesOfUnit` | src/ai/mcp/validation.ts:53 | a unit takes one, two or three bytes in UTF-8, by its range |
| `JsonText.BytesOfPair` | src/ai/mcp/validation.ts:53 | a surrogate pair takes four |
| `JsonText.BytesOfConcatenation` | src/ai/mcp/validation.ts:53 | byte lengths add up wherever a text is cut without parting a pair |
| `JsonText.BytesOfText` | src/ai/mcp/validation.ts:62 | the byte count of the limit is the UTF-8 length of the text `JSON.stringify` writes, escapes included |
| `JsonText.AcceptedByText` | src/ai/mcp/validation.ts:44-67 | accepted iff nodes, depth, the UTF-8 length of every string value and that of the serialised text are within the four limits; the result is that length |
| `ValidatorCache.Cache.Validator` | src/ai/mcp/validation.ts:23-35 | answers from the cache or compiles; never holds more than 500 entries, always the newest ones filed; a failed compilation changes nothing |
| `ValidatorCache.FilingsComeFromCalls` | src/ai/mcp/validation.ts:24-31 | whatever is filed under a key is the compilation of a schema asked for under that key |
| `ValidatorCache.InvisibleIff` | src/ai/mcp/validation.ts:17-35 | over all sequences of a set of calls the cache gives what compiling gives iff calls of the set that share a key compile alike |
| `ToolSchemas.ColumnsOfHistory` | src/ai/mcp/service.ts:237-274 | after any history a row's columns are those of everything listed under its key, merged in order |
| `ToolSchemas.StoredHashHonestIff` | src/ai/mcp/service.ts:247-273 | the stored hash is the digest of the stored schemas iff the tool's last listing has an output schema or none ever had |
| `ToolSchemas.HonestRowsNeverSeeTheCache` | src/ai/mcp/validation.ts:19-35 | the cache is invisible to tools whose hashes are the digests of their schemas |
| `ToolSchemas.DroppedSchemasCollide` | src/ai/mcp/service.ts:260-273 | two syncs of two tools after which the cache is not invisible |
| `Secrets.Encrypt` | src/lib/security/encryption.ts:51-60 | fails on the empty text only; the envelope is current and opens in its own context only |
| `Secrets.OpensIff` | src/lib/security/encryption.ts:62-83 | which envelopes open to which text: the first version under the current key, the second under the key its id names and in its own context |
| `Secrets.CurrentIff` | scripts/reencrypt-secrets.ts:17-25 | an envelope is current iff it carries the current key's prefix, so never one of the first version |
| `Rotation.ContextsBind` | scripts/reencrypt-secrets.ts:94-164 | contexts tie an envelope to column, organization and run, and the application's also to the external approval |
| `Rotation.LastWriteStands` | scripts/reencrypt-secrets.ts:70-77 | of several application writes to one column the last stands |
| `Rotation.ResealedReadsSameIff` | scripts/reencrypt-secrets.ts:21-30 | resealing keeps the application's reading iff the envelope is not an external approval's of the old version, which becomes unreadable |
| `Rotation.ApplicationEnvelopeBlocksIff` | scripts/reencrypt-secrets.ts:139-152 | an envelope the application sealed under an older key stops the sweep iff it is an external approval's |
| `Rotation.ReadingsAgree` | scripts/reencrypt-secrets.ts:70-77 | where every column holds what the application wrote, or that resealed, the application reads what its own writes alone would have left, save in old-version external approvals |
| `RotationSweep.Sweep.Replace` | scripts/reencrypt-secrets.ts:21-30 | skips and counts current envelopes, throws exactly on those it cannot open, reseals the rest |
| `RotationSweep.Sweep.Transact` | scripts/reencrypt-secrets.ts:70-82 | the compare-and-set replaces the envelope only if no write came between, with one audit row; every concurrent write survives; how each kind of failure leaves data, audit and counter |
| `RotationSweep.Sweep.Run` | scripts/reencrypt-secrets.ts:86-168 | beside any concurrent writes, the database has exactly the columns those writes alone would have left and reads like them (save old-version external approvals); a completed sweep leaves only current envelopes and columns written meanwhile, with one audit row per rotation; it stops only at a failed transaction or an envelope it cannot open; undisturbed it completes iff nothing blocks it |
| `RotationSweep.SweepTwice` | scripts/reencrypt-secrets.ts:86-168 | undisturbed, a second sweep rotates nothing and changes nothing |
| `Summaries.SecretsHaveNoInfluence` | src/lib/ai-sdk/approval-policy.ts:55-65 | arguments that differ only under sensitive names have equal summaries |
| `Summaries.SummaryRedacts` | src/lib/ai-sdk/approval-policy.ts:61-64 | every value under a sensitive name in a summary has been replaced |
| `Summaries.SummaryAlong` | src/lib/ai-sdk/approval-policy.ts:55-65 | along every path through the first eight items and the first twenty fields with harmless names the summary shows, down to the third level, the value itself, a string cut to 157 units and an ellipsis, or "[redacted]", and "[nested]" on the fourth |
| `Summaries.SummaryTwiceIff` | src/lib/ai-sdk/approval-policy.ts:55-65 | summarizing a summary changes nothing iff it shows no over-long text of a value that is not JSON |
| `Summaries.SummaryStringsShortIff` | src/lib/ai-sdk/approval-policy.ts:58-60 | its strings are at most 160 units long under the same condition |
| `Summaries.SummaryIsBounded` | src/lib/ai-sdk/approval-policy.ts:55-65 | at most 168421 nodes |
| `Summaries.BoundIsReached` | src/lib/ai-sdk/approval-policy.ts:55-65 | and an argument whose summary has as many, under every pattern that does not match its twenty one-character names |
| `Summaries.JsonSummary` | src/lib/ai-sdk/approval-policy.ts:55-65 | the summary of a JSON argument is its own summary and its strings are at most 160 units long |
| `Pools.PlanFitsBudget` | src/db/pool.ts:32-49 | the maxima of the live pools sum to at most the budget, and to all of it iff every usable pool is live |
| `Pools.LimitTable` | src/db/pool.ts:32-49 | the budget is the setting between 6 and 40, or 10; a web process gives two each to the system and platform pools and the rest to the tenant pool, a worker process halves it |
| `Pools.Registry.Configure` | src/db/pool.ts:131-143 | succeeds iff the kind is not configured otherwise and no pool was opened under another kind; a refusal changes nothing |
| `Pools.Registry.Get` | src/db/pool.ts:165-171 | the pool depends on process kind and context as promised, and the budget holds after every call |
| `Pools.Registry.Close` | src/db/pool.ts:189-201 | no pool is left, the configured kind stays |
| `Pools.RolePool.Prepare` | src/db/pool.ts:72-94 | refuses a caller whose context the pool is not for, else sets exactly the promised role, organisation and user |
| `Pools.PromisedSession` | src/db/pool.ts:72-94 | pool by pool, whom it admits and which role, organisation and user they get |
| `Pools.RolePool.Connect` | src/db/pool.ts:96-121 | whatever earlier holders left, a checkout carries exactly what its caller was promised, or the client is destroyed; no other caller's client changes |

## Left out

- `src/ai/mcp/context.ts`, `recordContentRead` and `templateMayResolve`: bounded accumulation and lookups, whose properties are local to one body.
- `evaluateToolApproval` in `src/lib/ai-sdk/approval-policy.ts`: a case analysis over regular-expression matches.
- `executeMcpTool` in `src/ai/mcp/service.ts`: it inserts rows without budgets, outside the protocol modelled here.
- The row columns that hold results, durations, error codes and timestamps, except where an error code is the outcome; the branch after the catch block that marks a server as needing authorisation.
- The lookup of the tool's binding and the validation of its input before a reservation: they only stop an invocation before it begins.
- Enabling a tool over the API other than the show/hide choice; deletion of servers.
- Documents that are made ready, or marked as failed, outside the queue (`src/lib/documents/parse.ts:74-96`).
- ToolCallStore.Store.ExecuteIdempotent: one invocation executes undisturbed here, while interleaving with others is what the theorems about runs of `ToolCalls` cover; the lock being free at its start stands for having waited for it.
- JobStore.Store.Tick: likewise one worker undisturbed; which rows the query picks is an input that satisfies the query.
- The `sleep` between polls of the worker, and a job's organisation, type names and result columns.
- Pools.Registry.Close: does not count connections of a closed pool that is still draining.
- Pools.RolePool.Connect: does not model a session left inside an open transaction, nor waiting for a free client.
- JsonLimits.AssertJsonLimits: a number is known by its text; no objects with `toJSON` and no cyclic values, which parsed JSON never has. `undefined` counts as not serialisable, as `Buffer.byteLength` throws on it.
- Summaries.SummaryIsBounded: says nothing of the length of names, which the summary does not limit.
- RotationSweep.Snapshot: returns the rows of a table in any order, as no result depends on it.
- The inside of Ajv, the MCP SDK, AES-GCM, SHA-256, drizzle-orm and PostgreSQL.
