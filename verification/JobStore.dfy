/** The code of `src/ai/jobs/service.ts` and of the loop in `src/ai/jobs/worker.ts` over their tables, and the proof
    that whatever it does is a run of the queue's atomic steps. */
module JobStore {
  import opened Prelude
  import opened Text
  import opened Chunking
  import opened KnowledgeChunks
  import opened Backoff
  import opened Jobs

  /** What the outside world does to the execution of one job: how the transaction, the finishing update and the update
      of the catch block end, and the random number the delay draws. */
  datatype Weather = Weather(commit: Write, finish: Write, retry: Write, random: Random)

  datatype Failure = DocumentNotFound | DocumentTextUnavailable | DatabaseFailure

  // ---- What the execution of one job comes to

  predicate HasText(documents: map<nat, Document>, d: nat) {
    d in documents && documents[d].text != []
  }

  /** The work of the job is done and known to be done. */
  predicate Works(documents: map<nat, Document>, c: Claimed, w: Weather) {
    c.document.Some? ==> HasText(documents, c.document.value) && w.commit.Acknowledged?
  }

  /** The job's document is ingested, known or not. */
  predicate Ingests(documents: map<nat, Document>, c: Claimed, w: Weather) {
    c.document.Some? && HasText(documents, c.document.value) && !w.commit.Rejected?
  }

  predicate Throws(works: bool, w: Weather) {
    !(works && w.finish.Acknowledged?) && !w.retry.Acknowledged?
  }

  function Executed(j: Job, c: Claimed, works: bool, w: Weather, now: int): Job {
    var finished := if works && !w.finish.Rejected? then Complete(j) else j;
    if (works && w.finish.Acknowledged?) || w.retry.Rejected? then finished else GiveBack(finished, c, now, w.random)
  }

  /** Every write is acknowledged. */
  predicate Fair(w: Weather) {
    w.commit.Acknowledged? && w.finish.Acknowledged? && w.retry.Acknowledged?
  }

  /** In fair weather nothing is thrown: a job whose work can be done is completed, another goes back into the queue or,
      after its last attempt, is failed. */
  lemma ExecutedInFairWeather(documents: map<nat, Document>, j: Job, c: Claimed, w: Weather, now: int)
    requires Fair(w)
    ensures !Throws(Works(documents, c, w), w)
    ensures Executed(j, c, Works(documents, c, w), w, now).status
            == if c.document.None? || HasText(documents, c.document.value) then Completed
               else if c.attempts >= c.maxAttempts then Failed else Queued
  {
  }

  /** Ingesting a document changes no text and no document's existence. */
  predicate SameTexts(before: map<nat, Document>, after: map<nat, Document>) {
    after.Keys == before.Keys && forall d :: d in before ==> after[d].text == before[d].text
  }

  lemma SameTextsSameWork(before: map<nat, Document>, after: map<nat, Document>, c: Claimed, w: Weather)
    requires SameTexts(before, after)
    ensures Works(after, c, w) == Works(before, c, w)
  {
  }

  /** What the claim returns for a row. */
  function ClaimOf(jobs: map<nat, Job>, id: nat): Claimed
    requires id in jobs
  {
    Claimed(id, jobs[id].document, jobs[id].attempts + 1, jobs[id].maxAttempts)
  }

  /** What the worker's loop does with one of the rows it claimed, from the tables as they were before the claim. */
  function AfterExecution(jobs: map<nat, Job>, documents: map<nat, Document>, id: nat, worker: nat, w: Weather,
                          now: int): Job
    requires id in jobs
  {
    var c := ClaimOf(jobs, id);
    Executed(Take(jobs[id], now, worker), c, Works(documents, c, w), w, now)
  }

  predicate ThrowsOn(jobs: map<nat, Job>, documents: map<nat, Document>, id: nat, w: Weather)
    requires id in jobs
  {
    Throws(Works(documents, ClaimOf(jobs, id), w), w)
  }

  /** The batch is what a claim of these rows returns. */
  ghost predicate IsBatch(jobs: map<nat, Job>, chosen: seq<nat>, batch: seq<Claimed>) {
    && |batch| == |chosen|
    && (forall i :: 0 <= i < |chosen| ==> chosen[i] in jobs && batch[i] == ClaimOf(jobs, chosen[i]))
    && (forall i, j :: 0 <= i < j < |chosen| ==> chosen[i] != chosen[j])
  }

  ghost predicate NoneThrew(jobs: map<nat, Job>, documents: map<nat, Document>, chosen: seq<nat>,
                            weather: nat -> Weather, n: nat)
    requires forall i :: 0 <= i < |chosen| ==> chosen[i] in jobs
  {
    forall i :: 0 <= i < |chosen| && i < n ==> !ThrowsOn(jobs, documents, chosen[i], weather(i))
  }

  /** Only an error that got out of the last job executed stops the batch before its end. */
  ghost predicate StopsAt(jobs: map<nat, Job>, documents: map<nat, Document>, chosen: seq<nat>,
                          weather: nat -> Weather, executed: nat)
    requires forall i :: 0 <= i < |chosen| ==> chosen[i] in jobs
  {
    && executed <= |chosen|
    && (executed > 0 ==> NoneThrew(jobs, documents, chosen, weather, executed - 1))
    && (executed < |chosen| ==> executed > 0 && ThrowsOn(jobs, documents, chosen[executed - 1], weather(executed - 1)))
  }

  lemma ThrewOrNot(jobs: map<nat, Job>, documents: map<nat, Document>, chosen: seq<nat>, weather: nat -> Weather,
                   i: nat)
    requires i < |chosen| && forall j :: 0 <= j < |chosen| ==> chosen[j] in jobs
    requires NoneThrew(jobs, documents, chosen, weather, i)
    ensures if ThrowsOn(jobs, documents, chosen[i], weather(i)) then StopsAt(jobs, documents, chosen, weather, i + 1)
            else NoneThrew(jobs, documents, chosen, weather, i + 1)
  {
  }

  /** What becomes of a queued job in a turn without trouble. */
  function FairStatus(job: Job, documents: map<nat, Document>): JobStatus {
    if job.document.None? || HasText(documents, job.document.value) then Completed
    else if job.attempts + 1 >= job.maxAttempts then Failed else Queued
  }

  ghost predicate AllDone(jobs0: map<nat, Job>, documents0: map<nat, Document>, jobs: map<nat, Job>, chosen: seq<nat>) {
    forall i :: 0 <= i < |chosen| ==>
      chosen[i] in jobs0 && chosen[i] in jobs && jobs[chosen[i]].status == FairStatus(jobs0[chosen[i]], documents0)
  }

  /** Of the rows claimed from these tables the first `n` have been executed and the others wait; all other jobs are as
      they were. */
  ghost predicate TurnedJobs(jobs0: map<nat, Job>, documents0: map<nat, Document>, jobs: map<nat, Job>, now: int,
                             w: nat, chosen: seq<nat>, weather: nat -> Weather, n: nat)
    requires forall i :: 0 <= i < |chosen| ==> chosen[i] in jobs0
  {
    && jobs.Keys == jobs0.Keys
    && (forall i :: 0 <= i < |chosen| && i < n ==>
          jobs[chosen[i]] == AfterExecution(jobs0, documents0, chosen[i], w, weather(i), now))
    && (forall i :: n <= i < |chosen| ==> jobs[chosen[i]] == Take(jobs0[chosen[i]], now, w))
    && (forall id :: id in jobs0 && id !in chosen ==> jobs[id] == jobs0[id])
  }

  lemma NoneExecuted(jobs0: map<nat, Job>, documents0: map<nat, Document>, now: int,
                     w: nat, chosen: seq<nat>, weather: nat -> Weather)
    requires forall i :: 0 <= i < |chosen| ==> chosen[i] in jobs0
    ensures TurnedJobs(jobs0, documents0, TakeAll(jobs0, chosen, now, w), now, w, chosen, weather, 0)
  {
  }

  lemma OneMoreExecuted(jobs0: map<nat, Job>, documents0: map<nat, Document>, jobs: map<nat, Job>, now: int,
                        w: nat, chosen: seq<nat>, weather: nat -> Weather, n: nat)
    requires forall i :: 0 <= i < |chosen| ==> chosen[i] in jobs0
    requires forall i, j :: 0 <= i < j < |chosen| ==> chosen[i] != chosen[j]
    requires n < |chosen| && TurnedJobs(jobs0, documents0, jobs, now, w, chosen, weather, n)
    ensures var id := chosen[n];
            TurnedJobs(jobs0, documents0, jobs[id := AfterExecution(jobs0, documents0, id, w, weather(n), now)],
                       now, w, chosen, weather, n + 1)
  {
  }

  class Store {
    var now: int
    var jobs: map<nat, Job>
    var documents: map<nat, Document>
    var chunks: ChunkTable
    ghost var workers: map<nat, Worker>
    ghost var claims: map<nat, seq<int>>

    ghost function Now(): State
      reads this
    {
      State(now, jobs, workers, documents, chunks, claims)
    }

    ghost predicate Stands(w: nat, batch: seq<Claimed>, stage: Stage)
      reads this
    {
      w in workers && workers[w] == Working(batch, stage)
    }

    /** The tables show the effect of `a` on `s`; let the worker and the history move on. */
    ghost method Did(s0: State, actions: seq<Action>, s: State, a: Action) returns (actions': seq<Action>)
      requires Leads(s0, actions, s) && Enabled(s, a) && now == Step(s, a).now
      requires jobs == NextJobs(s, a) && documents == NextDocuments(s, a) && chunks == NextChunks(s, a)
      modifies this`workers, this`claims
      ensures Now() == Step(s, a) && Leads(s0, actions', Now()) && actions' == actions + [a]
    {
      workers, claims := Step(s, a).workers, Step(s, a).claims;
      actions' := actions + [a];
      Then(s0, actions, s, a);
    }

    // ---- claimJobs

    /** Mark the chosen rows as running and return them. */
    method TakeRows(w: nat, chosen: seq<nat>) returns (batch: seq<Claimed>)
      requires forall i :: 0 <= i < |chosen| ==> chosen[i] in jobs
      requires forall i, j :: 0 <= i < j < |chosen| ==> chosen[i] != chosen[j]
      modifies this`jobs
      ensures jobs == TakeAll(old(jobs), chosen, now, w) && batch == Returned(old(Now()), chosen)
    {
      batch := [];
      var i := 0;
      while i < |chosen|
        invariant 0 <= i <= |chosen| && jobs.Keys == old(jobs).Keys && |batch| == i
        invariant forall id :: id in jobs ==>
                    jobs[id] == if id in chosen[..i] then Take(old(jobs)[id], now, w) else old(jobs)[id]
        invariant forall k :: 0 <= k < i ==> batch[k] == Returned(old(Now()), chosen)[k]
      {
        var id := chosen[i];
        assert id !in chosen[..i];
        var job := jobs[id];
        jobs := jobs[id := job.(status := Running, lockedAt := Some(now), lockedBy := Some(w),
                                attempts := job.attempts + 1)];
        batch := batch + [Claimed(id, job.document, job.attempts + 1, job.maxAttempts)];
        i := i + 1;
      }
      assert chosen[..i] == chosen;
    }

    /** The update over the rows the query has chosen; when it reports an error no batch comes back. */
    method ClaimJobs(w: nat, write: Write, lockTimeoutMs: int, batchSize: nat, ghost skipped: set<nat>,
                     chosen: seq<nat>)
      returns (batch: seq<Claimed>, ghost actions: seq<Action>)
      requires Stands(w, [], Ready) && IsClaim(Now(), lockTimeoutMs, batchSize, skipped, chosen)
      modifies this`jobs, this`workers, this`claims
      ensures var claim := Claim(w, write, lockTimeoutMs, batchSize, skipped, chosen);
              actions == [claim] && Leads(old(Now()), actions, Now()) && Now() == Step(old(Now()), claim)
      ensures Stands(w, batch, Ready) && ChosenExist(chosen)
      ensures batch == if write.Acknowledged? then Returned(old(Now()), chosen) else []
      ensures jobs == if write.Rejected? then old(jobs) else TakeAll(old(jobs), chosen, now, w)
    {
      ghost var s := Now();
      assert forall i :: 0 <= i < |chosen| ==> chosen[i] in Candidates(s, lockTimeoutMs, skipped);
      batch := [];
      if !write.Rejected? {
        var taken := TakeRows(w, chosen);
        if write.Acknowledged? {
          batch := taken;
        }
      }
      actions := Did(s, [], s, Claim(w, write, lockTimeoutMs, batchSize, skipped, chosen));
    }

    ghost predicate ChosenExist(chosen: seq<nat>)
      reads this
    {
      forall i :: 0 <= i < |chosen| ==> chosen[i] in jobs
    }

    // ---- processDocument

    method ReplaceRows(table: ChunkTable, d: nat, ghost text: JsString, cs: seq<Chunk>) returns (r: ChunkTable)
      requires cs == ChunksOfText(text)
      ensures r == ReplaceChunks(table, d, text)
    {
      r := DeleteChunks(table, d);
      if cs != [] {
        InsertNeverFails(table, d, text);
        r := InsertRows(r, d, cs);
      }
    }

    /** Find the document and its text, cut it, and replace its chunks statement by statement in one transaction, which
        takes effect as a whole or not at all. */
    method ProcessDocument(d: nat, commit: Write) returns (failure: Option<Failure>)
      modifies this`documents, this`chunks
      ensures failure.None? <==> HasText(old(documents), d) && commit.Acknowledged?
      ensures var takesEffect := HasText(old(documents), d) && !commit.Rejected?;
              && documents == (if takesEffect then Ingest(old(documents), d) else old(documents))
              && chunks == if takesEffect then ReplaceChunks(old(chunks), d, old(documents)[d].text) else old(chunks)
    {
      if d !in documents {
        return Some(DocumentNotFound);
      }
      var text := documents[d].text;
      if text == [] {
        return Some(DocumentTextUnavailable);
      }
      var r := ChunkText(text, DEFAULT_SIZE, DEFAULT_OVERLAP);
      var newDocuments := documents[d := documents[d].(status := Processing)];
      var newChunks := ReplaceRows(chunks, d, text, r.chunks);
      newDocuments := newDocuments[d := newDocuments[d].(status := Ingested)];
      if commit.Rejected? {
        return Some(DatabaseFailure);
      }
      documents, chunks := newDocuments, newChunks;
      failure := if commit.Acknowledged? then None else Some(DatabaseFailure);
    }

    // ---- executeClaimedJob

    /** The work of a claimed job: a document is ingested, any other job is merely accepted. */
    method Work(w: nat, ghost batch: seq<Claimed>, c: Claimed, weather: Weather, ghost s0: State,
                ghost actions: seq<Action>)
      returns (ok: bool, ghost actions': seq<Action>)
      requires batch != [] && c == batch[0] && Stands(w, batch, Ready) && Leads(s0, actions, Now())
      modifies this`documents, this`chunks, this`workers, this`claims
      ensures Leads(s0, actions', Now()) && actions <= actions' && Stands(w, batch, if ok then Processed else Erring)
      ensures ok == Works(old(documents), c, weather)
      ensures AfterWork(old(documents), old(chunks), c, weather)
    {
      ghost var s := Now();
      ghost var write := Acknowledged;
      ok := true;
      if c.document.Some? {
        var failure := ProcessDocument(c.document.value, weather.commit);
        ok := failure.None?;
        write := if HasText(s.documents, c.document.value) then weather.commit else Rejected;
      }
      actions' := Did(s0, actions, s, Process(w, write));
    }

    /** The two document tables are as the job's work leaves them. */
    ghost predicate AfterWork(documents0: map<nat, Document>, chunks0: ChunkTable, c: Claimed, weather: Weather)
      reads this
    {
      if Ingests(documents0, c, weather)
      then documents == Ingest(documents0, c.document.value)
           && chunks == ReplaceChunks(chunks0, c.document.value, documents0[c.document.value].text)
      else documents == documents0 && chunks == chunks0
    }

    method MarkCompleted(w: nat, ghost batch: seq<Claimed>, c: Claimed, write: Write, ghost s0: State,
                         ghost actions: seq<Action>)
      returns (ok: bool, ghost actions': seq<Action>)
      requires batch != [] && c == batch[0] && c.id in jobs && Stands(w, batch, Processed) && Leads(s0, actions, Now())
      modifies this`jobs, this`workers, this`claims
      ensures Leads(s0, actions', Now()) && actions <= actions' && ok == write.Acknowledged?
      ensures jobs == if write.Rejected? then old(jobs) else old(jobs)[c.id := Complete(old(jobs)[c.id])]
      ensures if ok then Stands(w, batch[1..], Ready) else Stands(w, batch, Erring)
    {
      ghost var s := Now();
      if !write.Rejected? {
        jobs := jobs[c.id := jobs[c.id].(status := Completed, lockedAt := None, lockedBy := None)];
      }
      ok := write.Acknowledged?;
      actions' := Did(s0, actions, s, Finish(w, write));
    }

    method GiveJobBack(w: nat, ghost batch: seq<Claimed>, c: Claimed, write: Write, random: Random,
                       ghost s0: State, ghost actions: seq<Action>)
      returns (ok: bool, ghost actions': seq<Action>)
      requires batch != [] && c == batch[0] && c.id in jobs && Stands(w, batch, Erring) && Leads(s0, actions, Now())
      modifies this`jobs, this`workers, this`claims
      ensures Leads(s0, actions', Now()) && actions <= actions' && ok == write.Acknowledged?
      ensures jobs == if write.Rejected? then old(jobs)
              else old(jobs)[c.id := GiveBack(old(jobs)[c.id], c, now, random)]
      ensures Stands(w, if ok then batch[1..] else [], Ready)
    {
      ghost var s := Now();
      if !write.Rejected? {
        var terminal := c.attempts >= c.maxAttempts;
        jobs := jobs[c.id := jobs[c.id].(status := if terminal then Failed else Queued,
                                         availableAt := now + RetryDelayMs(c.attempts, random),
                                         lockedAt := None, lockedBy := None)];
      }
      ok := write.Acknowledged?;
      actions' := Did(s0, actions, s, Retry(w, write, random));
    }

    /** The finishing update, or the catch block. */
    method Settle(w: nat, ghost batch: seq<Claimed>, c: Claimed, works: bool, weather: Weather,
                  ghost s0: State, ghost actions: seq<Action>)
      returns (threw: bool, ghost actions': seq<Action>)
      requires batch != [] && c == batch[0] && c.id in jobs && Leads(s0, actions, Now())
      requires Stands(w, batch, if works then Processed else Erring)
      modifies this`jobs, this`workers, this`claims
      ensures Leads(s0, actions', Now()) && actions <= actions' && Stands(w, if threw then [] else batch[1..], Ready)
      ensures threw == Throws(works, weather)
      ensures jobs == old(jobs)[c.id := Executed(old(jobs)[c.id], c, works, weather, now)]
    {
      var ok := works;
      actions' := actions;
      if ok {
        ok, actions' := MarkCompleted(w, batch, c, weather.finish, s0, actions);
      }
      if ok {
        return false, actions';
      }
      ok, actions' := GiveJobBack(w, batch, c, weather.retry, weather.random, s0, actions');
      threw := !ok;
    }

    /** One claimed job; `threw` tells whether an error left the catch block. */
    method ExecuteClaimedJob(w: nat, ghost batch: seq<Claimed>, c: Claimed, weather: Weather,
                             ghost s0: State, ghost actions: seq<Action>)
      returns (threw: bool, ghost actions': seq<Action>)
      requires batch != [] && c == batch[0] && c.id in jobs && Stands(w, batch, Ready) && Leads(s0, actions, Now())
      modifies this`jobs, this`documents, this`chunks, this`workers, this`claims
      ensures Leads(s0, actions', Now()) && actions <= actions' && Stands(w, if threw then [] else batch[1..], Ready)
      ensures var works := Works(old(documents), c, weather);
              threw == Throws(works, weather)
              && jobs == old(jobs)[c.id := Executed(old(jobs)[c.id], c, works, weather, now)]
      ensures AfterWork(old(documents), old(chunks), c, weather)
    {
      var works;
      works, actions' := Work(w, batch, c, weather, s0, actions);
      threw, actions' := Settle(w, batch, c, works, weather, s0, actions');
    }

    // ---- The worker's loop

    ghost predicate Turned(jobs0: map<nat, Job>, documents0: map<nat, Document>, w: nat, chosen: seq<nat>,
                           weather: nat -> Weather, n: nat)
      reads this
      requires forall i :: 0 <= i < |chosen| ==> chosen[i] in jobs0
    {
      SameTexts(documents0, documents) && TurnedJobs(jobs0, documents0, jobs, now, w, chosen, weather, n)
    }

    /** The loop over the batch stands before its i-th job. */
    ghost predicate InTurn(jobs0: map<nat, Job>, documents0: map<nat, Document>, w: nat, batch: seq<Claimed>,
                           chosen: seq<nat>, weather: nat -> Weather, i: nat)
      reads this
    {
      && IsBatch(jobs0, chosen, batch) && i <= |batch| && Stands(w, batch[i..], Ready)
      && Turned(jobs0, documents0, w, chosen, weather, i) && NoneThrew(jobs0, documents0, chosen, weather, i)
    }

    /** The loop has ended after so many jobs. */
    ghost predicate TurnEnded(jobs0: map<nat, Job>, documents0: map<nat, Document>, w: nat, chosen: seq<nat>,
                              weather: nat -> Weather, executed: nat)
      reads this
      requires forall i :: 0 <= i < |chosen| ==> chosen[i] in jobs0
    {
      && Stands(w, [], Ready) && Turned(jobs0, documents0, w, chosen, weather, executed)
      && StopsAt(jobs0, documents0, chosen, weather, executed)
    }

    method ExecuteNext(w: nat, batch: seq<Claimed>, i: nat, weather: nat -> Weather, chosen: seq<nat>,
                       ghost jobs0: map<nat, Job>, ghost documents0: map<nat, Document>,
                       ghost s0: State, ghost actions: seq<Action>)
      returns (threw: bool, ghost actions': seq<Action>)
      requires i < |batch| && InTurn(jobs0, documents0, w, batch, chosen, weather, i) && Leads(s0, actions, Now())
      modifies this`jobs, this`documents, this`chunks, this`workers, this`claims
      ensures Leads(s0, actions', Now()) && actions <= actions'
      ensures if threw then TurnEnded(jobs0, documents0, w, chosen, weather, i + 1)
              else InTurn(jobs0, documents0, w, batch, chosen, weather, i + 1)
    {
      SameTextsSameWork(documents0, documents, batch[i], weather(i));
      OneMoreExecuted(jobs0, documents0, jobs, now, w, chosen, weather, i);
      ThrewOrNot(jobs0, documents0, chosen, weather, i);
      assert batch[i..][0] == batch[i] && batch[i..][1..] == batch[i + 1..];
      threw, actions' := ExecuteClaimedJob(w, batch[i..], batch[i], weather(i), s0, actions);
      assert Turned(jobs0, documents0, w, chosen, weather, i + 1);
    }

    /** Execute a claimed batch in order, up to the first error that gets out. */
    method ExecuteBatch(w: nat, batch: seq<Claimed>, weather: nat -> Weather, chosen: seq<nat>,
                        ghost jobs0: map<nat, Job>, ghost documents0: map<nat, Document>,
                        ghost s0: State, ghost actions: seq<Action>)
      returns (executed: nat, ghost actions': seq<Action>)
      requires InTurn(jobs0, documents0, w, batch, chosen, weather, 0) && Leads(s0, actions, Now())
      modifies this`jobs, this`documents, this`chunks, this`workers, this`claims
      ensures Leads(s0, actions', Now()) && actions <= actions'
      ensures TurnEnded(jobs0, documents0, w, chosen, weather, executed)
    {
      executed, actions' := 0, actions;
      while executed < |batch|
        invariant InTurn(jobs0, documents0, w, batch, chosen, weather, executed)
        invariant Leads(s0, actions', Now()) && actions <= actions'
      {
        var threw;
        threw, actions' := ExecuteNext(w, batch, executed, weather, chosen, jobs0, documents0, s0, actions');
        executed := executed + 1;
        if threw {
          return;
        }
      }
      TurnOver(jobs0, documents0, w, batch, chosen, weather);
    }

    lemma TurnOver(jobs0: map<nat, Job>, documents0: map<nat, Document>, w: nat, batch: seq<Claimed>,
                   chosen: seq<nat>, weather: nat -> Weather)
      requires InTurn(jobs0, documents0, w, batch, chosen, weather, |batch|)
      ensures TurnEnded(jobs0, documents0, w, chosen, weather, |batch|)
    {
      assert batch[|batch|..] == [];
    }

    /** The claim at the head of a turn. */
    method BeginTurn(w: nat, claim: Write, lockTimeoutMs: int, batchSize: nat, ghost skipped: set<nat>,
                     chosen: seq<nat>, ghost weather: nat -> Weather)
      returns (batch: seq<Claimed>, ghost actions: seq<Action>)
      requires Stands(w, [], Ready) && IsClaim(Now(), lockTimeoutMs, batchSize, skipped, chosen)
      modifies this`jobs, this`workers, this`claims
      ensures Leads(old(Now()), actions, Now())
      ensures actions == [Claim(w, claim, lockTimeoutMs, batchSize, skipped, chosen)]
      ensures old(ChosenExist(chosen))
      ensures jobs == if claim.Rejected? then old(jobs) else TakeAll(old(jobs), chosen, now, w)
      ensures if claim.Acknowledged? then InTurn(old(jobs), documents, w, batch, chosen, weather, 0)
              else Stands(w, [], Ready)
    {
      ghost var s0 := Now();
      assert forall i :: 0 <= i < |chosen| ==> chosen[i] in Candidates(s0, lockTimeoutMs, skipped);
      NoneExecuted(jobs, documents, now, w, chosen, weather);
      batch, actions := ClaimJobs(w, claim, lockTimeoutMs, batchSize, skipped, chosen);
      assert batch[0..] == batch;
    }

    /** One turn of the worker's loop: claim a batch, execute it in order, stop at the first error that gets out. The
        claim comes first; the first `executed` of the chosen jobs are then as their execution leaves them and the
        others are left running. In fair weather the whole batch is executed, and every job whose work can be done is
        completed. */
    method Tick(w: nat, claim: Write, lockTimeoutMs: int, batchSize: nat, ghost skipped: set<nat>, chosen: seq<nat>,
                weather: nat -> Weather)
      returns (executed: nat, ghost actions: seq<Action>)
      requires Stands(w, [], Ready) && IsClaim(Now(), lockTimeoutMs, batchSize, skipped, chosen)
      modifies this`jobs, this`documents, this`chunks, this`workers, this`claims
      ensures Leads(old(Now()), actions, Now()) && Stands(w, [], Ready) && old(ChosenExist(chosen))
      ensures [Claim(w, claim, lockTimeoutMs, batchSize, skipped, chosen)] <= actions
      ensures !claim.Acknowledged? ==>
                && executed == 0 && documents == old(documents) && chunks == old(chunks)
                && jobs == if claim.Rejected? then old(jobs) else TakeAll(old(jobs), chosen, now, w)
      ensures claim.Acknowledged? ==> TurnEnded(old(jobs), old(documents), w, chosen, weather, executed)
      ensures claim.Acknowledged? && (forall i :: 0 <= i < |chosen| ==> Fair(weather(i))) ==>
                executed == |chosen| && AllDone(old(jobs), old(documents), jobs, chosen)
    {
      ghost var s0 := Now();
      var batch;
      batch, actions := BeginTurn(w, claim, lockTimeoutMs, batchSize, skipped, chosen, weather);
      executed := 0;
      if claim.Acknowledged? {
        executed, actions := ExecuteBatch(w, batch, weather, chosen, s0.jobs, s0.documents, s0, actions);
        FairTurn(s0.jobs, s0.documents, w, chosen, weather, executed);
      }
    }

    lemma FairTurn(jobs0: map<nat, Job>, documents0: map<nat, Document>, w: nat, chosen: seq<nat>,
                   weather: nat -> Weather, executed: nat)
      requires forall i :: 0 <= i < |chosen| ==> chosen[i] in jobs0
      requires TurnEnded(jobs0, documents0, w, chosen, weather, executed)
      ensures (forall i :: 0 <= i < |chosen| ==> Fair(weather(i))) ==>
                executed == |chosen| && AllDone(jobs0, documents0, jobs, chosen)
    {
      if forall i :: 0 <= i < |chosen| ==> Fair(weather(i)) {
        forall i | 0 <= i < |chosen|
          ensures !ThrowsOn(jobs0, documents0, chosen[i], weather(i))
          ensures AfterExecution(jobs0, documents0, chosen[i], w, weather(i), now).status
                  == FairStatus(jobs0[chosen[i]], documents0)
        {
          ExecutedInFairWeather(documents0, Take(jobs0[chosen[i]], now, w), ClaimOf(jobs0, chosen[i]), weather(i), now);
        }
      }
    }
  }
}
