/** What holds in every state the job queue can reach, whatever the workers, failures, crashes and cancellations. */
module JobTheorems {
  import opened Prelude
  import opened KnowledgeChunks
  import opened Backoff
  import opened Jobs

  /** How often a job may be executed: at least once, whatever `maxAttempts` says. */
  function Quota(maxAttempts: int): (q: nat)
  {
    if maxAttempts < 1 then 1 else maxAttempts
  }

  predicate Unlocked(j: Job) {
    j.lockedAt.None? && j.lockedBy.None?
  }

  /** Status, lock and attempts of a job always go together. */
  predicate JobInv(s: State, id: nat) {
    id in s.jobs ==>
      var j := s.jobs[id];
      match j.status
      case Queued => Unlocked(j) && j.attempts < Quota(j.maxAttempts)
      case Running =>
        && j.lockedAt.Some? && j.lockedAt.value <= s.now && j.lockedBy.Some? && j.lockedBy.value in s.workers
        && 1 <= j.attempts <= Quota(j.maxAttempts)
      case Completed => Unlocked(j) && 1 <= j.attempts <= Quota(j.maxAttempts)
      case Failed => Unlocked(j) && j.attempts == Quota(j.maxAttempts)
      case Cancelled => Unlocked(j) && j.attempts < Quota(j.maxAttempts)
  }

  /** A claimed job as the worker remembers it. */
  predicate Remembered(s: State, c: Claimed) {
    c.id in s.jobs
    && var j := s.jobs[c.id]; j.attempts == c.attempts && j.maxAttempts == c.maxAttempts && j.document == c.document
  }

  /** A job in a worker's batch is running under that worker's lock. */
  predicate Held(s: State, w: nat, c: Claimed) {
    Remembered(s, c) && s.jobs[c.id].status.Running? && s.jobs[c.id].lockedBy == Some(w)
  }

  /** The worker has completed the job but was told it had not. */
  predicate Unacknowledged(s: State, c: Claimed) {
    Remembered(s, c) && s.jobs[c.id].status.Completed?
  }

  predicate Consistent(s: State, w: nat, i: nat)
    requires w in s.workers && s.workers[w].Working? && i < |s.workers[w].batch|
  {
    var c := s.workers[w].batch[i];
    Held(s, w, c) || (i == 0 && s.workers[w].stage.Erring? && Unacknowledged(s, c))
  }

  predicate BatchInv(s: State, w: nat) {
    w in s.workers && s.workers[w].Working? ==>
      var batch := s.workers[w].batch;
      && (forall i :: 0 <= i < |batch| ==> Consistent(s, w, i))
      && (forall i, j :: 0 <= i < j < |batch| ==> batch[i].id != batch[j].id)
  }

  predicate InBatch(s: State, w: nat, id: nat) {
    w in s.workers && s.workers[w].Working?
    && exists i :: 0 <= i < |s.workers[w].batch| && s.workers[w].batch[i].id == id
  }

  predicate Exclusive(s: State, w: nat, v: nat, id: nat) {
    w != v ==> !(InBatch(s, w, id) && InBatch(s, v, id))
  }

  /** Between one claim of a job and the next lies at least the delay its attempt calls for. */
  predicate Spaced(times: seq<int>) {
    forall k, l :: 0 <= k < |times| && l == k + 1 && l < |times| ==> times[l] - times[k] >= Spacing(l)
  }

  predicate ClaimsInv(s: State, id: nat) {
    var times := History(s.claims, id);
    && |times| == (if id in s.jobs then s.jobs[id].attempts else 0)
    && Spaced(times)
    && (times != [] ==> times[|times| - 1] <= s.now)
    && (times != [] && s.jobs[id].status.Queued? ==>
          s.jobs[id].availableAt >= times[|times| - 1] + Spacing(|times|))
  }

  /** The rows of a ready document are the chunks of its text. */
  ghost predicate DocumentInv(s: State, d: nat) {
    d in s.documents && s.documents[d].status.Ingested? ==> HoldsExactly(s.chunks, d, ChunksOfText(s.documents[d].text))
  }

  ghost predicate Inv(s: State) {
    && (forall id :: JobInv(s, id) && ClaimsInv(s, id))
    && (forall w :: BatchInv(s, w))
    && (forall w, v, id :: Exclusive(s, w, v, id))
    && (forall d :: DocumentInv(s, d))
  }

  // ---- One step

  /** The job a worker's finishing update is about. */
  function Subject(s: State, w: nat): Claimed
    requires w in s.workers && s.workers[w].Working? && s.workers[w].batch != []
  {
    s.workers[w].batch[0]
  }

  predicate Settles(a: Action) {
    a.Finish? || a.Retry?
  }

  lemma SubjectKnown(s: State, a: Action)
    requires Enabled(s, a) && Settles(a) && BatchInv(s, a.w)
    ensures var c := Subject(s, a.w);
            Remembered(s, c) && (Held(s, a.w, c) || (a.Retry? && Unacknowledged(s, c)))
  {
    assert Consistent(s, a.w, 0);
  }

  lemma StepKeepsJob(s: State, a: Action, id: nat)
    requires Enabled(s, a) && JobInv(s, id)
    requires Settles(a) ==> BatchInv(s, a.w)
    ensures JobInv(Step(s, a), id)
  {
    if Settles(a) {
      SubjectKnown(s, a);
    }
  }

  /** No step but its own worker's touches a job that a worker holds. */
  lemma HeldStays(s: State, a: Action, w: nat, c: Claimed)
    requires Enabled(s, a) && Held(s, w, c)
    requires Settles(a) ==> BatchInv(s, a.w) && (a.w == w ==> Subject(s, w).id != c.id)
    ensures Held(Step(s, a), w, c)
  {
    if Settles(a) {
      SubjectKnown(s, a);
    }
  }

  lemma UnacknowledgedStays(s: State, a: Action, c: Claimed)
    requires Enabled(s, a) && Unacknowledged(s, c)
    requires Settles(a) ==> Subject(s, a.w).id != c.id
    ensures Unacknowledged(Step(s, a), c)
  {
  }

  lemma BatchMemberStays(s: State, a: Action, w: nat, i: nat)
    requires Enabled(s, a) && BatchInv(s, w) && (Settles(a) ==> BatchInv(s, a.w))
    requires w in s.workers && s.workers[w].Working? && i < |s.workers[w].batch|
    requires Step(s, a).workers[w] == s.workers[w]
    requires Settles(a) ==> a.w != w && Subject(s, a.w).id != s.workers[w].batch[i].id
    ensures Consistent(Step(s, a), w, i)
  {
    assert Consistent(s, w, i);
    var c := s.workers[w].batch[i];
    if Held(s, w, c) {
      HeldStays(s, a, w, c);
    } else {
      UnacknowledgedStays(s, a, c);
    }
  }

  lemma ClaimTakes(s: State, a: Action, id: nat)
    requires a.Claim? && !a.write.Rejected? && Enabled(s, a) && id in a.chosen
    ensures id in s.jobs && s.jobs[id].status.Queued? && NextJobs(s, a)[id] == Take(s.jobs[id], s.now, a.w)
  {
    var i :| 0 <= i < |a.chosen| && a.chosen[i] == id;
    assert a.chosen[i] in Candidates(s, a.lockTimeoutMs, a.skipped);
  }

  lemma ClaimFillsBatch(s: State, a: Action, i: nat)
    requires a.Claim? && a.write.Acknowledged? && Enabled(s, a) && i < |a.chosen|
    ensures Consistent(Step(s, a), a.w, i)
  {
    ClaimTakes(s, a, a.chosen[i]);
    assert Step(s, a).jobs == NextJobs(s, a) && Step(s, a).workers[a.w] == NextWorker(s, a);
    assert Returned(s, a.chosen)[i].id == a.chosen[i];
    assert Held(Step(s, a), a.w, Returned(s, a.chosen)[i]);
  }

  /** The rest of a worker's own batch when it settles its first job, and that job when it is not acknowledged. */
  lemma OwnBatchStays(s: State, a: Action)
    requires Enabled(s, a) && Settles(a) && BatchInv(s, a.w)
    ensures BatchInv(Step(s, a), a.w)
  {
    var s', batch := Step(s, a), s.workers[a.w].batch;
    SubjectKnown(s, a);
    forall k | 0 < k < |batch| ensures Held(s', a.w, batch[k]) {
      assert Consistent(s, a.w, k);
      HeldStays(s, a, a.w, batch[k]);
    }
    if a.Finish? && !a.write.Acknowledged? {
      assert s'.workers[a.w].batch == batch && s'.workers[a.w].stage.Erring?;
    } else if a.write.Acknowledged? {
      assert s'.workers[a.w].batch == batch[1..];
    }
  }

  lemma StepKeepsBatch(s: State, a: Action, w: nat)
    requires Enabled(s, a) && BatchInv(s, w)
    requires Settles(a) ==> BatchInv(s, a.w) && Exclusive(s, a.w, w, Subject(s, a.w).id)
    ensures BatchInv(Step(s, a), w)
  {
    var s' := Step(s, a);
    if Settles(a) && a.w == w {
      OwnBatchStays(s, a);
    } else if w in s'.workers && s'.workers[w].Working? {
      forall i | 0 <= i < |s'.workers[w].batch| ensures Consistent(s', w, i) {
        if a.Claim? && a.w == w {
          ClaimFillsBatch(s, a, i);
        } else if a.Process? && a.w == w {
          assert Consistent(s, w, i);
          HeldStays(s, a, w, s.workers[w].batch[i]);
        } else {
          if Settles(a) {
            assert s.workers[a.w].batch[0].id == Subject(s, a.w).id;
          }
          BatchMemberStays(s, a, w, i);
        }
      }
    }
  }

  lemma NewInBatch(s: State, a: Action, w: nat, id: nat)
    requires Enabled(s, a) && InBatch(Step(s, a), w, id)
    ensures InBatch(s, w, id) || (a.Claim? && a.w == w && id in s.jobs && s.jobs[id].status.Queued?)
  {
    var s' := Step(s, a);
    var i :| 0 <= i < |s'.workers[w].batch| && s'.workers[w].batch[i].id == id;
    if a.Claim? && a.w == w {
      assert a.chosen[i] in Candidates(s, a.lockTimeoutMs, a.skipped);
    } else if w in s.workers && s.workers[w].Working? {
      var batch := s.workers[w].batch;
      assert s'.workers[w].batch == batch || s'.workers[w].batch == batch[1..];
      if s'.workers[w].batch == batch {
        assert batch[i].id == id;
      } else {
        assert batch[i + 1].id == id;
      }
    }
  }

  lemma QueuedInNoBatch(s: State, w: nat, id: nat)
    requires BatchInv(s, w) && InBatch(s, w, id)
    ensures id in s.jobs && !s.jobs[id].status.Queued?
  {
    var i :| 0 <= i < |s.workers[w].batch| && s.workers[w].batch[i].id == id;
    assert Consistent(s, w, i);
  }

  lemma StepKeepsExclusive(s: State, a: Action, w: nat, v: nat, id: nat)
    requires Enabled(s, a) && BatchInv(s, w) && BatchInv(s, v) && Exclusive(s, w, v, id)
    ensures Exclusive(Step(s, a), w, v, id)
  {
    var s' := Step(s, a);
    if w != v && InBatch(s', w, id) && InBatch(s', v, id) {
      NewInBatch(s, a, w, id);
      NewInBatch(s, a, v, id);
      if InBatch(s, w, id) {
        QueuedInNoBatch(s, w, id);
      } else {
        QueuedInNoBatch(s, v, id);
      }
    }
  }

  lemma ClaimKeepsClaims(s: State, a: Action, id: nat)
    requires a.Claim? && Enabled(s, a) && ClaimsInv(s, id) && JobInv(s, id)
    ensures ClaimsInv(Step(s, a), id)
  {
    var times, times' := History(s.claims, id), History(Step(s, a).claims, id);
    if id in a.chosen && !a.write.Rejected? {
      ClaimTakes(s, a, id);
      assert times' == times + [s.now];
    } else {
      assert times' == times;
    }
  }

  lemma StepKeepsClaims(s: State, a: Action, id: nat)
    requires Enabled(s, a) && ClaimsInv(s, id) && JobInv(s, id)
    requires Settles(a) ==> BatchInv(s, a.w)
    ensures ClaimsInv(Step(s, a), id)
  {
    if a.Claim? {
      ClaimKeepsClaims(s, a, id);
    } else if Settles(a) {
      SubjectKnown(s, a);
    }
  }

  lemma StepKeepsDocument(s: State, a: Action, d: nat)
    requires Enabled(s, a) && DocumentInv(s, d)
    ensures DocumentInv(Step(s, a), d)
  {
    var replaced := Replaces(s, a);
    if replaced.Some? {
      ReplacedRows(s.chunks, replaced.value, s.documents[replaced.value].text);
    }
  }

  lemma StepKeepsInv(s: State, a: Action)
    requires Inv(s) && Enabled(s, a)
    ensures Inv(Step(s, a))
  {
    forall id ensures JobInv(Step(s, a), id) && ClaimsInv(Step(s, a), id) {
      StepKeepsJob(s, a, id);
      StepKeepsClaims(s, a, id);
    }
    forall w ensures BatchInv(Step(s, a), w) {
      StepKeepsBatch(s, a, w);
    }
    forall w, v, id ensures Exclusive(Step(s, a), w, v, id) {
      StepKeepsExclusive(s, a, w, v, id);
    }
    forall d ensures DocumentInv(Step(s, a), d) {
      StepKeepsDocument(s, a, d);
    }
  }

  lemma {:induction false} RunKeepsInv(s: State, actions: seq<Action>, s': State)
    requires Inv(s) && Leads(s, actions, s')
    ensures Inv(s')
    decreases |actions|
  {
    if actions != [] {
      StepKeepsInv(s, actions[0]);
      RunKeepsInv(Step(s, actions[0]), actions[1..], s');
    }
  }

  ghost predicate Reachable(s: State) {
    exists s0, actions :: Initial(s0) && Leads(s0, actions, s)
  }

  lemma ReachableInv(s: State)
    requires Reachable(s)
    ensures Inv(s)
  {
    var s0, actions :| Initial(s0) && Leads(s0, actions, s);
    RunKeepsInv(s0, actions, s);
  }

  // ---- The queue's main results

  /** Status, lock and attempts in every reachable state: a queued job is unlocked and has attempts left, a running job
      is locked by one worker, a failed job has used up all its attempts. */
  lemma JobStates(s: State, id: nat)
    requires Reachable(s) && id in s.jobs
    ensures var j := s.jobs[id];
            && (j.status.Queued? ==> Unlocked(j) && j.attempts < Quota(j.maxAttempts))
            && (j.status.Running? <==> j.lockedBy.Some?) && (j.lockedBy.Some? <==> j.lockedAt.Some?)
            && (j.status.Running? || j.status.Completed? ==> 1 <= j.attempts <= Quota(j.maxAttempts))
            && (j.status.Failed? ==> j.attempts == Quota(j.maxAttempts))
  {
    ReachableInv(s);
    assert JobInv(s, id);
  }

  /** No two workers hold the same job, and a worker holds no job twice. */
  lemma ClaimsAreDisjoint(s: State, w: nat, i: nat, v: nat, j: nat)
    requires Reachable(s) && w in s.workers && s.workers[w].Working? && v in s.workers && s.workers[v].Working?
    requires i < |s.workers[w].batch| && j < |s.workers[v].batch| && (w != v || i != j)
    ensures s.workers[w].batch[i].id != s.workers[v].batch[j].id
  {
    ReachableInv(s);
    assert BatchInv(s, w) && Exclusive(s, w, v, s.workers[w].batch[i].id);
    if w == v && j < i {
      assert s.workers[w].batch[j].id != s.workers[w].batch[i].id;
    }
  }

  /** The finishing update as the source issues it, by id alone. */
  function UpdateById(jobs: map<nat, Job>, id: nat, j: Job): map<nat, Job> {
    if id in jobs then jobs[id := j] else jobs
  }

  /** The same update issued with the guard the source leaves out. */
  function UpdateIfOwned(jobs: map<nat, Job>, id: nat, w: nat, attempts: nat, j: Job): map<nat, Job> {
    if id in jobs && jobs[id].status.Running? && jobs[id].lockedBy == Some(w) && jobs[id].attempts == attempts
    then jobs[id := j] else jobs
  }

  /** Although they filter by id only, the updates that finish or give back a job do what updates guarded by status and
      owner would do iff the row is still running; it is not only when the worker's own completion took effect and
      reported an error. No row another worker has taken, and no cancelled row, is ever hit. */
  lemma FinishingUpdatesAreGuardedIff(s: State, a: Action)
    requires Reachable(s) && Enabled(s, a) && Settles(a) && !a.write.Rejected?
    ensures var c := Subject(s, a.w);
            && Step(s, a).jobs == UpdateById(s.jobs, c.id, Step(s, a).jobs[c.id])
            && (Step(s, a).jobs == UpdateIfOwned(s.jobs, c.id, a.w, c.attempts, Step(s, a).jobs[c.id])
                <==> s.jobs[c.id].status.Running?)
            && (!s.jobs[c.id].status.Running? ==> a.Retry? && s.jobs[c.id].status.Completed?)
  {
    ReachableInv(s);
    assert BatchInv(s, a.w);
    SubjectKnown(s, a);
  }

  function CandidatesIgnoringLocks(s: State, skipped: set<nat>): set<nat> {
    set id | id in s.jobs && id !in skipped && s.jobs[id].status.Queued? && s.jobs[id].availableAt <= s.now
  }

  /** The lock columns never decide a claim: with or without them, and whatever the lock timeout, the candidates are
      the same. */
  lemma LockTimeoutNeverMatters(s: State, lockTimeoutMs: int, skipped: set<nat>)
    requires Reachable(s)
    ensures Candidates(s, lockTimeoutMs, skipped) == CandidatesIgnoringLocks(s, skipped)
  {
    ReachableInv(s);
    assert forall id :: id in s.jobs ==> JobInv(s, id);
  }

  predicate Settled(j: Job) {
    j.status.Completed? || j.status.Failed? || j.status.Cancelled?
  }

  /** A worker gives this job back. */
  predicate GivesBack(s: State, a: Action, id: nat) {
    a.Retry? && !a.write.Rejected? && a.w in s.workers && s.workers[a.w].Working? && s.workers[a.w].batch != []
    && Subject(s, a.w).id == id
  }

  /** A step touches a settled job iff it gives the job back, and that happens to completed jobs only. */
  lemma SettledTouchedIff(s: State, a: Action, id: nat)
    requires Reachable(s) && Enabled(s, a) && id in s.jobs && Settled(s.jobs[id])
    ensures id in Step(s, a).jobs && (Step(s, a).jobs[id] != s.jobs[id] <==> GivesBack(s, a, id))
    ensures GivesBack(s, a, id) ==> s.jobs[id].status.Completed? && Step(s, a).jobs[id].status in {Queued, Failed}
  {
    ReachableInv(s);
    SettledTouched(s, a, id);
  }

  lemma SettledTouched(s: State, a: Action, id: nat)
    requires Inv(s) && Enabled(s, a) && id in s.jobs && Settled(s.jobs[id])
    ensures id in Step(s, a).jobs && (Step(s, a).jobs[id] != s.jobs[id] <==> GivesBack(s, a, id))
    ensures GivesBack(s, a, id) ==> s.jobs[id].status.Completed? && Step(s, a).jobs[id].status in {Queued, Failed}
  {
    if Settles(a) {
      assert BatchInv(s, a.w);
      SubjectKnown(s, a);
    }
  }

  /** The completion of this job takes effect but its worker is told it failed. */
  predicate LosesCompletion(s: State, a: Action, id: nat) {
    a.Finish? && a.write.Lost? && a.w in s.workers && s.workers[a.w].Working? && s.workers[a.w].batch != []
    && Subject(s, a.w).id == id
  }

  ghost predicate LeadsWithoutLoss(s: State, actions: seq<Action>, s': State, id: nat)
    decreases |actions|
  {
    if actions == [] then s' == s
    else
      && Enabled(s, actions[0]) && !LosesCompletion(s, actions[0], id)
      && LeadsWithoutLoss(Step(s, actions[0]), actions[1..], s', id)
  }

  /** Every worker knows about this job's completion. */
  ghost predicate KnownDone(s: State, id: nat) {
    id in s.jobs && s.jobs[id].status.Completed? ==> forall w :: !InBatch(s, w, id)
  }

  lemma FirstCompletion(s: State, a: Action, id: nat)
    requires Enabled(s, a) && !LosesCompletion(s, a, id) && !(id in s.jobs && s.jobs[id].status.Completed?)
    requires id in Step(s, a).jobs && Step(s, a).jobs[id].status.Completed?
    ensures a.Finish? && a.write.Acknowledged? && Subject(s, a.w).id == id && InBatch(s, a.w, id)
  {
    assert a.Finish?;
    assert s.workers[a.w].batch[0].id == id;
  }

  lemma FinishedLeavesBatches(s: State, a: Action, w: nat, id: nat)
    requires Inv(s) && Enabled(s, a) && a.Finish? && a.write.Acknowledged? && Subject(s, a.w).id == id
    requires InBatch(s, a.w, id)
    ensures !InBatch(Step(s, a), w, id)
  {
    assert BatchInv(s, a.w) && Exclusive(s, w, a.w, id);
    if InBatch(Step(s, a), w, id) {
      NewInBatch(s, a, w, id);
    }
  }

  lemma StepKeepsKnownDone(s: State, a: Action, id: nat)
    requires Inv(s) && Enabled(s, a) && KnownDone(s, id) && !LosesCompletion(s, a, id)
    ensures KnownDone(Step(s, a), id)
  {
    var s' := Step(s, a);
    if id in s'.jobs && s'.jobs[id].status.Completed? {
      if id in s.jobs && s.jobs[id].status.Completed? {
        forall w ensures !InBatch(s', w, id) {
          if InBatch(s', w, id) {
            NewInBatch(s, a, w, id);
          }
        }
      } else {
        FirstCompletion(s, a, id);
        forall w ensures !InBatch(s', w, id) {
          FinishedLeavesBatches(s, a, w, id);
        }
      }
    }
  }

  lemma {:induction false} RunKeepsKnownDone(s: State, actions: seq<Action>, s': State, id: nat)
    requires Inv(s) && KnownDone(s, id) && LeadsWithoutLoss(s, actions, s', id)
    ensures Inv(s') && KnownDone(s', id)
    ensures id in s.jobs && Settled(s.jobs[id]) ==> id in s'.jobs && s'.jobs[id] == s.jobs[id]
    decreases |actions|
  {
    if actions != [] {
      var a := actions[0];
      StepKeepsInv(s, a);
      StepKeepsKnownDone(s, a, id);
      if id in s.jobs && Settled(s.jobs[id]) {
        SettledTouched(s, a, id);
        assert GivesBack(s, a, id) ==> s.workers[a.w].batch[0].id == id && InBatch(s, a.w, id);
      }
      RunKeepsKnownDone(Step(s, a), actions[1..], s', id);
    }
  }

  /** A completed, failed or cancelled job is never touched again, in every run that does not lose its completion. */
  lemma SettledForever(s0: State, first: seq<Action>, s: State, later: seq<Action>, s': State, id: nat)
    requires Initial(s0) && LeadsWithoutLoss(s0, first, s, id) && LeadsWithoutLoss(s, later, s', id)
    requires id in s.jobs && Settled(s.jobs[id])
    ensures id in s'.jobs && s'.jobs[id] == s.jobs[id]
  {
    RunKeepsKnownDone(s0, first, s, id);
    RunKeepsKnownDone(s, later, s', id);
  }

  /** A failed or cancelled job is never touched again in any run. */
  lemma {:induction false} FailedForever(s: State, actions: seq<Action>, s': State, id: nat)
    requires Inv(s) && Leads(s, actions, s') && id in s.jobs && s.jobs[id].status in {Failed, Cancelled}
    ensures id in s'.jobs && s'.jobs[id] == s.jobs[id]
    decreases |actions|
  {
    if actions != [] {
      StepKeepsInv(s, actions[0]);
      SettledTouched(s, actions[0], id);
      FailedForever(Step(s, actions[0]), actions[1..], s', id);
    }
  }

  /** Running, but in no worker's batch. */
  ghost predicate Orphaned(s: State, id: nat) {
    id in s.jobs && s.jobs[id].status.Running? && forall w :: !InBatch(s, w, id)
  }

  /** The worker `w` holds the job, and it is running. */
  predicate HoldsRunning(s: State, w: nat, id: nat) {
    id in s.jobs && s.jobs[id].status.Running? && InBatch(s, w, id)
  }

  /** The step leaves a running job without a worker: its worker crashes, or gives up its batch because a job could not
      be given back and this one has not been, or a claim takes effect but reports an error. */
  predicate Drops(s: State, a: Action, id: nat) {
    match a
    case Crash(w) => HoldsRunning(s, w, id)
    case Retry(w, write, _) =>
      !write.Acknowledged? && HoldsRunning(s, w, id) && (Subject(s, w).id == id ==> write.Rejected?)
    case Claim(_, write, _, _, _, chosen) => write.Lost? && id in chosen
    case _ => false
  }

  /** Any worker can crash at any time, and its crash changes no table. */
  lemma AnyWorkerCanCrash(s: State, w: nat)
    requires w in s.workers && s.workers[w].Working?
    ensures Enabled(s, Crash(w))
    ensures var s' := Step(s, Crash(w));
            s'.workers == s.workers[w := Gone] && s'.jobs == s.jobs && s'.documents == s.documents &&
                s'.chunks == s.chunks
  {
  }

  lemma OrphanUntouched(s: State, a: Action, id: nat)
    requires Enabled(s, a) && Orphaned(s, id)
    ensures Orphaned(Step(s, a), id) && Step(s, a).jobs[id] == s.jobs[id]
  {
    if Settles(a) {
      assert s.workers[a.w].batch[0].id == id ==> InBatch(s, a.w, id);
    }
    forall w ensures !InBatch(Step(s, a), w, id) {
      if InBatch(Step(s, a), w, id) {
        NewInBatch(s, a, w, id);
      }
    }
  }

  /** The lock timeout does not rescue a job: once orphaned it stays as it is, however long its lock gets. */
  lemma {:induction false} OrphanedForever(s: State, actions: seq<Action>, s': State, id: nat)
    requires Leads(s, actions, s') && Orphaned(s, id)
    ensures Orphaned(s', id) && s'.jobs[id] == s.jobs[id]
    decreases |actions|
  {
    if actions != [] {
      OrphanUntouched(s, actions[0], id);
      OrphanedForever(Step(s, actions[0]), actions[1..], s', id);
    }
  }

  lemma DroppedIsOrphaned(s: State, a: Action, id: nat)
    requires Inv(s) && Enabled(s, a) && Drops(s, a, id)
    ensures Orphaned(Step(s, a), id)
  {
    var s' := Step(s, a);
    if a.Claim? {
      assert id in Candidates(s, a.lockTimeoutMs, a.skipped);
    }
    forall w ensures !InBatch(s', w, id) {
      if InBatch(s', w, id) {
        NewInBatch(s, a, w, id);
        assert BatchInv(s, w) && Exclusive(s, a.w, w, id);
        if a.Claim? {
          QueuedInNoBatch(s, w, id);
        }
      }
    }
  }

  lemma HeldOrDropped(s: State, a: Action, w: nat, id: nat)
    requires Inv(s) && Enabled(s, a) && HoldsRunning(s, w, id) && !Drops(s, a, id)
    ensures id in Step(s, a).jobs && Step(s, a).jobs[id].status.Running? ==> InBatch(Step(s, a), w, id)
  {
    var s' := Step(s, a);
    var i :| 0 <= i < |s.workers[w].batch| && s.workers[w].batch[i].id == id;
    if Settles(a) && a.w == w {
      assert BatchInv(s, w) && Consistent(s, w, i);
      if a.write.Acknowledged? && i > 0 {
        assert s'.workers[w].batch[i - 1].id == id;
      } else if a.Finish? && !a.write.Acknowledged? {
        assert s'.workers[w].batch[i].id == id;
      }
    } else if w in s'.workers && s'.workers[w].Working? {
      assert s'.workers[w].batch == s.workers[w].batch;
    }
  }

  /** A job is orphaned by a step iff it was already, or the step drops it. */
  lemma OrphanedIff(s: State, a: Action, id: nat)
    requires Reachable(s) && Enabled(s, a)
    ensures Orphaned(Step(s, a), id) <==> Orphaned(s, id) || Drops(s, a, id)
  {
    ReachableInv(s);
    var s' := Step(s, a);
    if Orphaned(s, id) {
      OrphanUntouched(s, a, id);
    } else if Drops(s, a, id) {
      DroppedIsOrphaned(s, a, id);
    } else if Orphaned(s', id) {
      NotNewlyRunning(s, a, id);
      var w :| InBatch(s, w, id);
      HeldOrDropped(s, a, w, id);
    }
  }

  lemma ClaimedInBatch(s: State, a: Action, id: nat)
    requires Enabled(s, a) && a.Claim? && a.write.Acknowledged? && id in a.chosen
    ensures InBatch(Step(s, a), a.w, id)
  {
    var i :| 0 <= i < |a.chosen| && a.chosen[i] == id;
    assert Step(s, a).workers[a.w].batch[i].id == id;
  }

  lemma NotNewlyRunning(s: State, a: Action, id: nat)
    requires Inv(s) && Enabled(s, a) && !Drops(s, a, id) && Orphaned(Step(s, a), id)
    ensures id in s.jobs && s.jobs[id].status.Running?
  {
    if a.Claim? && a.write.Acknowledged? && id in a.chosen {
      ClaimedInBatch(s, a, id);
    }
  }

  /** A job is executed at most `Quota` times, and its k-th and next claim are at least the k-th spacing apart. */
  lemma ExecutionsBoundedAndSpaced(s: State, id: nat)
    requires Reachable(s)
    ensures id in s.jobs ==>
              && |History(s.claims, id)| == s.jobs[id].attempts
              && s.jobs[id].attempts <= if s.jobs[id].maxAttempts < 1 then 1 else s.jobs[id].maxAttempts
    ensures id !in s.jobs ==> History(s.claims, id) == []
    ensures forall k, l :: 0 <= k < |History(s.claims, id)| && l == k + 1 && l < |History(s.claims, id)| ==>
              History(s.claims, id)[l] - History(s.claims, id)[k]
              >= if l <= 6 then [1_000, 2_000, 4_000, 8_000, 16_000, 32_000][l - 1] else 60_000
  {
    forall l ensures l >= 1 ==>
        Spacing(l) == if l <= 6 then [1_000, 2_000, 4_000, 8_000, 16_000, 32_000][l - 1] else 60_000
    {
      SpacingTable(l);
    }
    ReachableInv(s);
    assert JobInv(s, id) && ClaimsInv(s, id);
  }

  /** However often its jobs ran, crashed, were retried or committed unnoticed: the rows of a document the queue has
      made ready are the chunks of its text, as if it had been ingested once. */
  lemma ReadyDocumentsHoldTheirChunks(s: State, d: nat)
    requires Reachable(s) && d in s.documents && s.documents[d].status.Ingested?
    ensures HoldsExactly(s.chunks, d, ChunksOfText(s.documents[d].text))
  {
    ReachableInv(s);
    assert DocumentInv(s, d);
  }

  /** Ingesting a ready document again changes nothing in either table. */
  lemma IngestingAgainChangesNothing(s: State, a: Action)
    requires Reachable(s) && Enabled(s, a) && Replaces(s, a).Some?
    requires s.documents[Replaces(s, a).value].status.Ingested?
    ensures Step(s, a).chunks == s.chunks && Step(s, a).documents == s.documents
  {
    var d := Replaces(s, a).value;
    ReadyDocumentsHoldTheirChunks(s, d);
    ReplaceAgain(s.chunks, d, s.documents[d].text);
  }

  /** Whatever a step does to one document's chunks, it leaves those of every other document alone. */
  lemma OtherDocumentsUntouched(s: State, a: Action, d: nat)
    requires Enabled(s, a) && Replaces(s, a) != Some(d)
    ensures d in Step(s, a).documents <==> d in s.documents
    ensures d in s.documents ==> Step(s, a).documents[d] == s.documents[d]
    ensures forall i :: (ChunkKey(d, i) in Step(s, a).chunks <==> ChunkKey(d, i) in s.chunks)
                        && (ChunkKey(d, i) in s.chunks ==>
                            Step(s, a).chunks[ChunkKey(d, i)] == s.chunks[ChunkKey(d, i)])
  {
    var replaced := Replaces(s, a);
    if replaced.Some? {
      ReplacedRows(s.chunks, replaced.value, s.documents[replaced.value].text);
    }
  }

  // ---- Which jobs a claim takes

  /** No step changes what a job is for, how often it may run, or when it was created. */
  lemma IdentityStays(s: State, a: Action, id: nat)
    requires Enabled(s, a) && id in s.jobs
    ensures var jobs := Step(s, a).jobs;
            && id in jobs && jobs[id].document == s.jobs[id].document
            && jobs[id].maxAttempts == s.jobs[id].maxAttempts && jobs[id].createdAt == s.jobs[id].createdAt
  {
  }

  lemma {:induction false} DistinctWithin(ids: seq<nat>, all: set<nat>)
    requires forall i :: 0 <= i < |ids| ==> ids[i] in all
    requires forall i, j :: 0 <= i < j < |ids| ==> ids[i] != ids[j]
    ensures |ids| <= |all|
  {
    if ids != [] {
      DistinctWithin(ids[..|ids| - 1], all - {ids[|ids| - 1]});
    }
  }

  /** A claim takes queued jobs that are due, at most a batch of them. It leaves out a queued job that is due and not
      locked by another claim only if the batch is full of jobs that were due earlier or, due at the same time, were not
      created later. */
  lemma ClaimTakesTheFirst(s: State, a: Action, id: nat)
    requires Reachable(s) && Enabled(s, a) && a.Claim?
    ensures |a.chosen| <= a.batchSize
    ensures forall i :: 0 <= i < |a.chosen| ==>
              && a.chosen[i] in s.jobs && s.jobs[a.chosen[i]].status.Queued?
              && s.jobs[a.chosen[i]].availableAt <= s.now && a.chosen[i] !in a.skipped
    ensures id in s.jobs && s.jobs[id].status.Queued? && s.jobs[id].availableAt <= s.now && id !in a.skipped
            && id !in a.chosen ==>
              && |a.chosen| == a.batchSize
              && forall i :: 0 <= i < |a.chosen| ==>
                   var taken, left := s.jobs[a.chosen[i]], s.jobs[id];
                   taken.availableAt < left.availableAt
                   || (taken.availableAt == left.availableAt && taken.createdAt <= left.createdAt)
  {
    LockTimeoutNeverMatters(s, a.lockTimeoutMs, a.skipped);
    var candidates := Candidates(s, a.lockTimeoutMs, a.skipped);
    assert forall i :: 0 <= i < |a.chosen| ==> a.chosen[i] in candidates;
    if id in candidates && id !in a.chosen {
      DistinctWithin(a.chosen, candidates - {id});
    }
  }

  // ---- What does not hold

  function LoneJob(status: JobStatus, attempts: nat, availableAt: int, lock: Option<int>): Job {
    Job(None, status, attempts, 2, availableAt, lock, if lock.Some? then Some(0) else None, 0)
  }

  function LoneState(job: Job, worker: Worker, claims: map<nat, seq<int>>): State {
    State(0, map[0 := job], map[0 := worker], map[], map[], claims)
  }

  function QueuedJob(): State {
    LoneState(LoneJob(Queued, 0, 0, None), Working([], Ready), map[])
  }

  function ClaimedJob(): State {
    LoneState(LoneJob(Running, 1, 0, Some(0)), Working([Claimed(0, None, 1, 2)], Ready), map[0 := [0]])
  }

  lemma ReachQueued()
    ensures Leads(Nothing(), [Start(0), Enqueue(0, None, 2)], QueuedJob())
  {
    var s1 := Step(Nothing(), Start(0));
    Then(Nothing(), [], Nothing(), Start(0));
    Then(Nothing(), [Start(0)], s1, Enqueue(0, None, 2));
    assert Step(s1, Enqueue(0, None, 2)) == QueuedJob();
    assert [Start(0)] + [Enqueue(0, None, 2)] == [Start(0), Enqueue(0, None, 2)];
  }

  lemma ClaimQueued(claim: Action)
    requires claim == Claim(0, Acknowledged, 30_000, 5, {}, [0])
    ensures Enabled(QueuedJob(), claim) && Step(QueuedJob(), claim) == ClaimedJob()
  {
    var s := QueuedJob();
    assert Candidates(s, 30_000, {}) == {0};
    assert Returned(s, [0]) == [Claimed(0, None, 1, 2)];
    assert NextJobs(s, claim) == map[0 := LoneJob(Running, 1, 0, Some(0))];
    assert [] + [0] == [0];
    assert NextClaims(s, claim) == map[0 := [0]];
  }

  lemma ReachClaimed() returns (actions: seq<Action>)
    ensures Leads(Nothing(), actions, ClaimedJob())
  {
    ReachQueued();
    var claim := Claim(0, Acknowledged, 30_000, 5, {}, [0]);
    ClaimQueued(claim);
    Then(Nothing(), [Start(0), Enqueue(0, None, 2)], QueuedJob(), claim);
    actions := [Start(0), Enqueue(0, None, 2)] + [claim];
  }

  function Nothing(): State {
    State(0, map[], map[], map[], map[], map[])
  }

  function CompletedUnawares(): State {
    LoneState(LoneJob(Completed, 1, 0, None), Working([Claimed(0, None, 1, 2)], Erring), map[0 := [0]])
  }

  lemma ReachProcessed() returns (actions: seq<Action>)
    ensures Leads(Nothing(), actions,
                  LoneState(LoneJob(Running, 1, 0, Some(0)), Working([Claimed(0, None, 1, 2)], Processed),
                      map[0 := [0]]))
  {
    var ready := ClaimedJob();
    var before := ReachClaimed();
    Then(Nothing(), before, ready, Process(0, Acknowledged));
    actions := before + [Process(0, Acknowledged)];
    assert Step(ready, Process(0, Acknowledged))
        == LoneState(LoneJob(Running, 1, 0, Some(0)), Working([Claimed(0, None, 1, 2)], Processed), map[0 := [0]]);
  }

  lemma ReachCompletedUnawares() returns (actions: seq<Action>)
    ensures Leads(Nothing(), actions, CompletedUnawares())
  {
    var processed := LoneState(LoneJob(Running, 1, 0, Some(0)), Working([Claimed(0, None, 1, 2)], Processed),
        map[0 := [0]]);
    var before := ReachProcessed();
    Then(Nothing(), before, processed, Finish(0, Lost));
    actions := before + [Finish(0, Lost)];
    assert NextJobs(processed, Finish(0, Lost)) == map[0 := LoneJob(Completed, 1, 0, None)];
    assert Step(processed, Finish(0, Lost)) == CompletedUnawares();
  }

  /** If a completion takes effect but reports an error, the catch block puts the finished job back into the queue, so
      what `SettledForever` asks of the run cannot be dropped. */
  lemma LostCompletionIsRequeued() returns (before: seq<Action>, s: State, after: seq<Action>, s': State)
    ensures Initial(Nothing()) && Leads(Nothing(), before, s) && 0 in s.jobs && s.jobs[0].status == Completed
    ensures before < after && Leads(Nothing(), after, s') && 0 in s'.jobs && s'.jobs[0].status == Queued
  {
    before := ReachCompletedUnawares();
    s := CompletedUnawares();
    var retry := Retry(0, Acknowledged, 0.0);
    Then(Nothing(), before, s, retry);
    after := before + [retry];
    s' := Step(s, retry);
    assert NextJobs(s, retry) == s.jobs[0 := GiveBack(s.jobs[0], Claimed(0, None, 1, 2), 0, 0.0)];
  }
}
