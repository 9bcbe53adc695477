/** The background-job queue of `src/ai/jobs/service.ts` and `src/ai/jobs/worker.ts`, with the cancel route of
    `src/app/api/jobs/route.ts`, as atomic steps of any number of workers under one clock. */
module Jobs {
  import opened Prelude
  import opened Text
  import opened KnowledgeChunks
  import opened Backoff

  datatype JobStatus = Queued | Running | Completed | Failed | Cancelled

  /** A row of `background_jobs`; `document` is the document of a `document.parse` job, None for the other types. */
  datatype Job = Job(
    document: Option<nat>, status: JobStatus, attempts: nat, maxAttempts: int,
    availableAt: int, lockedAt: Option<int>, lockedBy: Option<nat>, createdAt: int)

  /** What a worker remembers of a row it claimed. */
  datatype Claimed = Claimed(id: nat, document: Option<nat>, attempts: nat, maxAttempts: int)

  datatype Stage = Ready | Processed | Erring

  /** A worker process: the batch it still has to execute and how far it is with the first job of it. */
  datatype Worker = Working(batch: seq<Claimed>, stage: Stage) | Gone

  datatype DocumentStatus = Uploaded | Processing | Ingested

  datatype Document = Document(text: JsString, status: DocumentStatus)

  /** `claims` is the history of each job: the times at which it was claimed. */
  datatype State = State(
    now: int, jobs: map<nat, Job>, workers: map<nat, Worker>,
    documents: map<nat, Document>, chunks: ChunkTable, claims: map<nat, seq<int>>)

  datatype Action =
    | Elapse(ms: nat)
    | Enqueue(id: nat, document: Option<nat>, maxAttempts: int)
    | Cancel(id: nat)
    | Start(w: nat)
    | Claim(w: nat, write: Write, lockTimeoutMs: int, batchSize: nat, skipped: set<nat>, chosen: seq<nat>)
    | Process(w: nat, write: Write)
    | Finish(w: nat, write: Write)
    | Retry(w: nat, write: Write, random: Random)
    | Crash(w: nat)

  // ---- The claim query

  predicate Eligible(now: int, job: Job, lockTimeoutMs: int) {
    job.status.Queued? && job.availableAt <= now
    && (job.lockedAt.None? || job.lockedAt.value < now - lockTimeoutMs)
  }

  function Candidates(s: State, lockTimeoutMs: int, skipped: set<nat>): set<nat> {
    set id | id in s.jobs && id !in skipped && Eligible(s.now, s.jobs[id], lockTimeoutMs)
  }

  predicate NotAfter(a: Job, b: Job) {
    a.availableAt < b.availableAt || (a.availableAt == b.availableAt && a.createdAt <= b.createdAt)
  }

  /** `chosen` is an answer the query may give: the first `batchSize` candidates by availability and age, leaving out
      the rows other transactions have locked. */
  ghost predicate IsClaim(s: State, lockTimeoutMs: int, batchSize: nat, skipped: set<nat>, chosen: seq<nat>) {
    var candidates := Candidates(s, lockTimeoutMs, skipped);
    && (forall i :: 0 <= i < |chosen| ==> chosen[i] in candidates)
    && (forall i, j :: 0 <= i < j < |chosen| ==> chosen[i] != chosen[j])
    && |chosen| == (if |candidates| < batchSize then |candidates| else batchSize)
    && (forall i, other :: 0 <= i < |chosen| && other in candidates && other !in chosen ==>
          NotAfter(s.jobs[chosen[i]], s.jobs[other]))
  }

  // ---- What the steps write

  function Take(job: Job, now: int, w: nat): Job {
    job.(status := Running, lockedAt := Some(now), lockedBy := Some(w), attempts := job.attempts + 1)
  }

  function TakeAll(jobs: map<nat, Job>, chosen: seq<nat>, now: int, w: nat): map<nat, Job> {
    map id | id in jobs :: if id in chosen then Take(jobs[id], now, w) else jobs[id]
  }

  function Complete(job: Job): Job {
    job.(status := Completed, lockedAt := None, lockedBy := None)
  }

  function GiveBack(job: Job, c: Claimed, now: int, random: Random): Job
  {
    job.(status := if c.attempts >= c.maxAttempts then Failed else Queued,
         availableAt := now + RetryDelayMs(c.attempts, random), lockedAt := None, lockedBy := None)
  }

  /** The transaction of `processDocument` on the table of documents. */
  function Ingest(documents: map<nat, Document>, d: nat): map<nat, Document>
    requires d in documents
  {
    documents[d := documents[d].(status := Ingested)]
  }

  predicate CanProcess(s: State, d: nat) {
    d in s.documents && s.documents[d].text != []
  }

  // ---- Steps

  ghost predicate Enabled(s: State, a: Action) {
    match a
    case Elapse(_) => true
    case Enqueue(id, _, _) => id !in s.jobs
    case Cancel(id) => id in s.jobs && s.jobs[id].status.Queued?
    case Start(w) => w !in s.workers
    case Claim(w, _, timeout, batchSize, skipped, chosen) =>
      w in s.workers && s.workers[w].Working? && s.workers[w].batch == []
      && IsClaim(s, timeout, batchSize, skipped, chosen)
    case Process(w, write) =>
      Stands(s, w, Ready)
      && var document := s.workers[w].batch[0].document;
         if document.None? then write.Acknowledged? else write.Rejected? || CanProcess(s, document.value)
    case Finish(w, _) => Stands(s, w, Processed) && s.workers[w].batch[0].id in s.jobs
    case Retry(w, _, _) => Stands(s, w, Erring) && s.workers[w].batch[0].id in s.jobs
    case Crash(w) => w in s.workers && s.workers[w].Working?
  }

  predicate Stands(s: State, w: nat, stage: Stage) {
    w in s.workers && s.workers[w].Working? && s.workers[w].batch != [] && s.workers[w].stage == stage
  }

  ghost function NextJobs(s: State, a: Action): map<nat, Job>
    requires Enabled(s, a)
  {
    match a
    case Enqueue(id, document, max) => s.jobs[id := Job(document, Queued, 0, max, s.now, None, None, s.now)]
    case Cancel(id) => s.jobs[id := s.jobs[id].(status := Cancelled)]
    case Claim(w, write, _, _, _, chosen) => if write.Rejected? then s.jobs else TakeAll(s.jobs, chosen, s.now, w)
    case Finish(w, write) =>
      var c := s.workers[w].batch[0];
      if write.Rejected? then s.jobs else s.jobs[c.id := Complete(s.jobs[c.id])]
    case Retry(w, write, random) =>
      var c := s.workers[w].batch[0];
      if write.Rejected? then s.jobs else s.jobs[c.id := GiveBack(s.jobs[c.id], c, s.now, random)]
    case _ => s.jobs
  }

  /** The rows the query returns, in the order it returns them. */
  ghost function Returned(s: State, chosen: seq<nat>): seq<Claimed>
    requires forall i :: 0 <= i < |chosen| ==> chosen[i] in s.jobs
  {
    seq(|chosen|, i requires 0 <= i < |chosen| =>
      Claimed(chosen[i], s.jobs[chosen[i]].document, s.jobs[chosen[i]].attempts + 1, s.jobs[chosen[i]].maxAttempts))
  }

  /** What becomes of the worker that acts: an error in the catch block of a job ends the whole batch. */
  ghost function NextWorker(s: State, a: Action): Worker
    requires Enabled(s, a) && (a.Start? || a.Claim? || a.Process? || a.Finish? || a.Retry? || a.Crash?)
  {
    match a
    case Start(w) => Working([], Ready)
    case Claim(w, write, _, _, _, chosen) => Working(if write.Acknowledged? then Returned(s, chosen) else [], Ready)
    case Process(w, write) => s.workers[w].(stage := if write.Acknowledged? then Processed else Erring)
    case Finish(w, write) =>
      if write.Acknowledged? then Working(s.workers[w].batch[1..], Ready) else s.workers[w].(stage := Erring)
    case Retry(w, write, _) =>
      if write.Acknowledged? then Working(s.workers[w].batch[1..], Ready) else Working([], Ready)
    case Crash(w) => Gone
  }

  /** The document whose chunks a step replaces, if it does. */
  ghost function Replaces(s: State, a: Action): Option<nat>
    requires Enabled(s, a)
  {
    if a.Process? && !a.write.Rejected? then s.workers[a.w].batch[0].document else None
  }

  ghost function NextDocuments(s: State, a: Action): map<nat, Document>
    requires Enabled(s, a)
  {
    var d := Replaces(s, a);
    if d.Some? then Ingest(s.documents, d.value) else s.documents
  }

  ghost function NextChunks(s: State, a: Action): ChunkTable
    requires Enabled(s, a)
  {
    var d := Replaces(s, a);
    if d.Some? then ReplaceChunks(s.chunks, d.value, s.documents[d.value].text) else s.chunks
  }

  function History(claims: map<nat, seq<int>>, id: nat): seq<int> {
    if id in claims then claims[id] else []
  }

  ghost function NextClaims(s: State, a: Action): map<nat, seq<int>> {
    if a.Claim? && !a.write.Rejected? then
      map id | id in s.claims.Keys + (set i | 0 <= i < |a.chosen| :: a.chosen[i]) ::
        if id in a.chosen then History(s.claims, id) + [s.now] else History(s.claims, id)
    else s.claims
  }

  ghost function Step(s: State, a: Action): State
    requires Enabled(s, a)
  {
    State(if a.Elapse? then s.now + a.ms else s.now,
          NextJobs(s, a),
          if a.Elapse? || a.Enqueue? || a.Cancel? then s.workers else s.workers[a.w := NextWorker(s, a)],
          NextDocuments(s, a),
          NextChunks(s, a),
          NextClaims(s, a))
  }

  /** No jobs, no workers, and no document that is ready; any chunks may be left over from elsewhere. */
  ghost predicate Initial(s: State) {
    && s.jobs == map[] && s.workers == map[] && s.claims == map[]
    && forall d :: d in s.documents ==> !s.documents[d].status.Ingested?
  }

  ghost predicate Leads(s: State, actions: seq<Action>, s': State)
    decreases |actions|
  {
    if actions == [] then s' == s
    else Enabled(s, actions[0]) && Leads(Step(s, actions[0]), actions[1..], s')
  }

  lemma {:induction false} Then(s: State, actions: seq<Action>, s': State, a: Action)
    requires Leads(s, actions, s') && Enabled(s', a)
    ensures Leads(s, actions + [a], Step(s', a))
    decreases |actions|
  {
    if actions == [] {
      assert [a][1..] == [];
      assert actions + [a] == [a];
    } else {
      Then(Step(s, actions[0]), actions[1..], s', a);
      assert (actions + [a])[1..] == actions[1..] + [a];
    }
  }
}
