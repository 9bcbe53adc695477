/** What holds in every state the tool-call protocol can reach, whatever the interleaving, the failures and the
    crashes. */
module ToolCallTheorems {
  import opened Prelude
  import opened Limits
  import opened ToolCalls

  // ---- The inductive invariant

  /** From its commit on, an invocation is the one that created the row of its key. */
  predicate Owns(pc: Pc) {
    match pc
    case Reserved | Announced | Calling | Answered(_) | Recorded(_) | Stepped(_) | Catching | Amended => true
    case Done(outcome) => outcome.Returned?
    case _ => false
  }

  /** How often the remote tool has been called, and the row's status, when the creator stands at `pc`. */
  predicate Progress(pc: Pc, status: Status, calls: nat) {
    && calls <= 1 && (status.Completed? ==> calls == 1)
    && match pc
       case Reserved | Announced => calls == 0 && status.Running?
       case Calling | Answered(_) => calls == 1 && status.Running?
       case Recorded(isError) => calls == 1 && status == (if isError then Failed else Completed)
       case Stepped(isError) => calls == 1 && status == (if isError then Failed else Completed)
       case Amended => status.Failed?
       case Done(outcome) => outcome.Returned? ==> status.Completed?
       case _ => true
  }

  /** A lock is held by an invocation inside its transaction on that run. */
  predicate LockHeld(s: State, run: string) {
    run in s.locks ==>
      s.locks[run] in s.invocations && s.invocations[s.locks[run]].req.key.run == run
      && InTransaction(s.invocations[s.locks[run]].pc)
  }

  predicate HoldsLock(s: State, id: nat)
    requires id in s.invocations
  {
    InTransaction(s.invocations[id].pc) ==>
      s.invocations[id].req.key.run in s.locks && s.locks[s.invocations[id].req.key.run] == id
  }

  ghost predicate LockInv(s: State) {
    (forall run :: LockHeld(s, run)) && (forall id :: id in s.invocations ==> HoldsLock(s, id))
  }

  predicate AdmissionInv(s: State, i: Invocation) {
    && (i.pc.Fresh? || i.pc.Admitted? ==> i.req.key !in s.rows)
    && (i.pc.Admitted? ==>
          && |ToolRows(s.rows, i.req.key.run, i.req.tool)| < i.req.maxCalls
          && |RunRows(s.rows, i.req.key.run)| < MaxTotalToolCallsPerRun(i.req.env))
  }

  predicate OwnerInv(s: State, id: nat)
    requires id in s.invocations
  {
    Owns(s.invocations[id].pc) ==>
      s.invocations[id].req.key in s.rows && s.rows[s.invocations[id].req.key].creator == id
  }

  predicate RowInv(s: State, k: Key) {
    if k in s.rows then
      var row := s.rows[k];
      row.creator in s.invocations
      && var i := s.invocations[row.creator];
         i.req.key == k && i.req.tool == row.tool && i.req.digest == row.digest
         && (Owns(i.pc) || Over(i.pc)) && Progress(i.pc, row.status, s.remote[k])
    else s.remote[k] == 0 && Log(s, k) == []
  }

  ghost predicate Inv(s: State) {
    && LockInv(s)
    && (forall id :: id in s.invocations ==> AdmissionInv(s, s.invocations[id]))
    && (forall id :: id in s.invocations ==> OwnerInv(s, id))
    && (forall k :: RowInv(s, k))
  }

  // ---- Every step keeps it

  lemma RowsFrame(s: State, a: Action)
    requires Enabled(s, a) && !a.Invoke?
    ensures var rows, k := Step(s, a).rows, s.invocations[a.id].req.key;
            && (forall x :: x != k ==> (x in rows <==> x in s.rows) && (x in s.rows ==> rows[x] == s.rows[x]))
            && rows.Keys == s.rows.Keys + (if Inserts(a) then {k} else {})
            && (!Inserts(a) && k in s.rows ==> rows[k] == s.rows[k].(status := rows[k].status))
  {
  }

  lemma LocksFrame(s: State, a: Action, run: string)
    requires Enabled(s, a) && !a.Invoke? && run != s.invocations[a.id].req.key.run
    ensures var locks := Step(s, a).locks;
            (run in locks <==> run in s.locks) && (run in s.locks ==> locks[run] == s.locks[run])
  {
  }

  /** A step touches one invocation, its key and its run; rows never go, and only a commit adds one. */
  lemma StepFrame(s: State, a: Action)
    requires Enabled(s, a) && !a.Invoke?
    ensures var s', i := Step(s, a), s.invocations[a.id];
            && s'.invocations == s.invocations[a.id := s'.invocations[a.id]]
            && s'.invocations[a.id].req == i.req
            && (forall k :: k != i.req.key ==>
                (k in s'.rows <==> k in s.rows) && (k in s.rows ==> s'.rows[k] == s.rows[k]))
            && (forall k :: k != i.req.key ==> Log(s', k) == Log(s, k) && s'.remote[k] == s.remote[k])
            && s'.rows.Keys == s.rows.Keys + (if Inserts(a) then {i.req.key} else {})
            && (!Inserts(a) && i.req.key in s.rows ==>
                  s'.rows[i.req.key] == s.rows[i.req.key].(status := s'.rows[i.req.key].status))
            && (forall run :: run != i.req.key.run ==>
                  (run in s'.locks <==> run in s.locks) && (run in s.locks ==> s'.locks[run] == s.locks[run]))
  {
    RowsFrame(s, a);
    forall run | run != s.invocations[a.id].req.key.run
      ensures (run in Step(s, a).locks <==> run in s.locks) &&
              (run in s.locks ==> Step(s, a).locks[run] == s.locks[run])
    {
      LocksFrame(s, a, run);
    }
  }

  lemma StepKeepsLocks(s: State, a: Action)
    requires LockInv(s) && Enabled(s, a)
    ensures LockInv(Step(s, a))
  {
    var s' := Step(s, a);
    if !a.Invoke? {
      StepFrame(s, a);
      assert HoldsLock(s, a.id) && LockHeld(s, s.invocations[a.id].req.key.run);
    }
    forall run ensures LockHeld(s', run) {
      assert LockHeld(s, run);
    }
    forall id | id in s'.invocations ensures HoldsLock(s', id) {
      assert id in s.invocations ==> HoldsLock(s, id);
    }
  }

  lemma SameRowsSameBudget(s: State, a: Action, run: string, tool: string)
    requires Enabled(s, a) && !Inserts(a)
    ensures RunRows(Step(s, a).rows, run) == RunRows(s.rows, run)
    ensures ToolRows(Step(s, a).rows, run, tool) == ToolRows(s.rows, run, tool)
  {
    if !a.Invoke? {
      StepFrame(s, a);
      var s' := Step(s, a);
      assert forall k :: k in s.rows ==> k in s'.rows && s'.rows[k].tool == s.rows[k].tool;
    }
  }

  lemma OtherRunSameBudget(s: State, a: Action, run: string, tool: string)
    requires Enabled(s, a) && !a.Invoke? && run != s.invocations[a.id].req.key.run
    ensures RunRows(Step(s, a).rows, run) == RunRows(s.rows, run)
    ensures ToolRows(Step(s, a).rows, run, tool) == ToolRows(s.rows, run, tool)
  {
    StepFrame(s, a);
  }

  /** Another invocation inside its transaction holds the lock of its run, so no row of that run is added meanwhile. */
  lemma OthersStayAdmitted(s: State, a: Action, id: nat)
    requires Enabled(s, a) && !a.Invoke? && id != a.id && id in s.invocations && AdmissionInv(s, s.invocations[id])
    requires InTransaction(s.invocations[id].pc) ==>
            !Inserts(a) || s.invocations[id].req.key.run != s.invocations[a.id].req.key.run
    ensures AdmissionInv(Step(s, a), Step(s, a).invocations[id])
  {
    StepFrame(s, a);
    var i := s.invocations[id];
    if InTransaction(i.pc) {
      if Inserts(a) {
        OtherRunSameBudget(s, a, i.req.key.run, i.req.tool);
      } else {
        SameRowsSameBudget(s, a, i.req.key.run, i.req.tool);
      }
    }
  }

  lemma ActorStaysAdmitted(s: State, a: Action)
    requires Enabled(s, a) && !a.Invoke? && AdmissionInv(s, s.invocations[a.id])
    ensures AdmissionInv(Step(s, a), Step(s, a).invocations[a.id])
  {
    var i, s' := s.invocations[a.id], Step(s, a);
    var pc := s'.invocations[a.id].pc;
    if pc.Fresh? || pc.Admitted? {
      assert a.ReadDuplicate? || a.ReadCounts?;
      assert s'.rows == s.rows;
    }
  }

  lemma SoleTransaction(s: State, id: nat, other: nat)
    requires LockInv(s) && id in s.invocations && other in s.invocations && id != other
    requires InTransaction(s.invocations[id].pc) && InTransaction(s.invocations[other].pc)
    ensures s.invocations[id].req.key.run != s.invocations[other].req.key.run
  {
    assert HoldsLock(s, id) && HoldsLock(s, other);
  }

  lemma StepKeepsAdmission(s: State, a: Action, id: nat)
    requires LockInv(s) && Enabled(s, a) && id in Step(s, a).invocations
    requires id in s.invocations ==> AdmissionInv(s, s.invocations[id])
    ensures AdmissionInv(Step(s, a), Step(s, a).invocations[id])
  {
    if !a.Invoke? {
      if id == a.id {
        ActorStaysAdmitted(s, a);
      } else {
        if InTransaction(s.invocations[id].pc) && Inserts(a) {
          SoleTransaction(s, id, a.id);
        }
        OthersStayAdmitted(s, a, id);
      }
    }
  }

  /** Only a row's creator writes it, logs for it or calls the tool for it. */
  lemma OnlyOwnersAct(s: State, a: Action)
    requires Enabled(s, a) && !a.Invoke? && !Owns(s.invocations[a.id].pc)
    ensures Written(s.invocations[a.id].pc, a) == [] && Logged(s.invocations[a.id].pc, a) == [] && !Calls(a)
    ensures !Inserts(a) ==> !Owns(Step(s, a).invocations[a.id].pc)
  {
  }

  lemma StepKeepsOwners(s: State, a: Action, id: nat)
    requires Enabled(s, a) && id in Step(s, a).invocations
    requires id in s.invocations ==> OwnerInv(s, id)
    requires a.id in s.invocations ==> OwnerInv(s, a.id) && AdmissionInv(s, s.invocations[a.id])
    ensures OwnerInv(Step(s, a), id)
  {
    if !a.Invoke? {
      StepFrame(s, a);
      if !Owns(s.invocations[a.id].pc) {
        OnlyOwnersAct(s, a);
      }
    }
  }

  lemma ProgressNext(s: State, i: Invocation, a: Action, status: Status, calls: nat)
    requires Enabled(s, a) && !a.Invoke? && s.invocations[a.id] == i
    requires (Owns(i.pc) || Over(i.pc)) && Progress(i.pc, status, calls)
    ensures var next, written := Next(s, i, a), Written(i.pc, a);
            && (Owns(next) || Over(next)) && !Inserts(a)
            && Progress(next, if written != [] then written[0] else status, calls + if Calls(a) then 1 else 0)
  {
  }

  lemma CreatorProgress(s: State, a: Action)
    requires Enabled(s, a) && !a.Invoke?
    requires var i := s.invocations[a.id];
             i.req.key in s.rows && s.rows[i.req.key].creator == a.id
             && (Owns(i.pc) || Over(i.pc)) && Progress(i.pc, s.rows[i.req.key].status, s.remote[i.req.key])
    ensures var s', k := Step(s, a), s.invocations[a.id].req.key;
            (Owns(s'.invocations[a.id].pc) || Over(s'.invocations[a.id].pc))
            && Progress(s'.invocations[a.id].pc, s'.rows[k].status, s'.remote[k])
  {
    var i := s.invocations[a.id];
    ProgressNext(s, i, a, s.rows[i.req.key].status, s.remote[i.req.key]);
  }

  /** An invocation that did not create the row of its key leaves the row, its log and the remote side alone. */
  lemma BystanderChangesNothing(s: State, a: Action)
    requires Enabled(s, a) && !a.Invoke? && OwnerInv(s, a.id) && AdmissionInv(s, s.invocations[a.id])
    requires var k := s.invocations[a.id].req.key; k in s.rows && s.rows[k].creator != a.id
    ensures var s', k := Step(s, a), s.invocations[a.id].req.key;
            s'.rows == s.rows && Log(s', k) == Log(s, k) && s'.remote == s.remote
  {
    OnlyOwnersAct(s, a);
  }

  lemma StepKeepsRow(s: State, a: Action, k: Key)
    requires Enabled(s, a) && RowInv(s, k)
    requires a.id in s.invocations ==> OwnerInv(s, a.id) && AdmissionInv(s, s.invocations[a.id])
    ensures RowInv(Step(s, a), k)
  {
    if !a.Invoke? {
      StepFrame(s, a);
      var i := s.invocations[a.id];
      if k == i.req.key {
        if k !in s.rows {
          OnlyOwnersAct(s, a);
        } else if s.rows[k].creator == a.id {
          CreatorProgress(s, a);
        } else {
          BystanderChangesNothing(s, a);
        }
      }
    }
  }

  lemma StepKeepsInv(s: State, a: Action)
    requires Inv(s) && Enabled(s, a)
    ensures Inv(Step(s, a))
  {
    var s' := Step(s, a);
    StepKeepsLocks(s, a);
    forall id | id in s'.invocations ensures AdmissionInv(s', s'.invocations[id]) {
      StepKeepsAdmission(s, a, id);
    }
    forall id | id in s'.invocations ensures OwnerInv(s', id) {
      StepKeepsOwners(s, a, id);
    }
    forall k ensures RowInv(s', k) {
      StepKeepsRow(s, a, k);
    }
  }

  lemma InitInv(runs: set<string>)
    ensures Inv(Init(runs))
  {
  }

  lemma {:induction false} RunKeepsInv(s: State, actions: seq<Action>, s': State)
    requires Inv(s) && Leads(s, actions, s')
    ensures Inv(s')
    decreases |actions|
  {
    if actions != [] {
      StepKeepsInv(s, actions[0]);
      RunKeepsInv(Step(s, actions[0]), actions[1..], s');
    }
  }

  // ---- At most one remote call

  /** However many invocations of a key there are, and however they interleave, fail or crash, the remote tool is
      called for it at most once, and only if the reservation of the key was committed. */
  lemma RemoteCalledAtMostOnce(runs: set<string>, actions: seq<Action>, s: State, k: Key)
    requires Leads(Init(runs), actions, s)
    ensures s.remote[k] <= 1
    ensures s.remote[k] == 1 ==> k in s.rows
    ensures k in s.rows && s.rows[k].status.Completed? ==> s.remote[k] == 1
  {
    InitInv(runs);
    RunKeepsInv(Init(runs), actions, s);
    assert RowInv(s, k);
  }

  // ---- Later invocations only observe

  /** Once a key has its row, nothing another invocation of the key does changes a row, the key's log or the remote
      side; it ends with the stored status if it brings the same digest, and with a conflict if it does not. */
  lemma LaterInvocationsOnlyObserve(s: State, a: Action)
    requires Inv(s) && Enabled(s, a) && !a.Invoke?
    requires var k := s.invocations[a.id].req.key; k in s.rows && s.rows[k].creator != a.id
    ensures var s', i := Step(s, a), s.invocations[a.id];
            && s'.rows == s.rows && Log(s', i.req.key) == Log(s, i.req.key) && s'.remote == s.remote
            && (i.pc.Locked? && a.ReadDuplicate? ==>
                  var row, end := s.rows[i.req.key], s'.invocations[a.id].pc;
                  if row.digest == i.req.digest
                  then end == Done(if row.status.Failed? then Threw(EarlierFailure) else Replayed(row.status))
                  else end == Done(Threw(IdempotencyConflict)))
  {
    assert OwnerInv(s, a.id) && AdmissionInv(s, s.invocations[a.id]);
    BystanderChangesNothing(s, a);
  }

  /** Any invocation that is not over can crash at any time, which changes no table and gives its lock back. */
  lemma AnyInvocationCanCrash(s: State, id: nat)
    requires id in s.invocations && !Over(s.invocations[id].pc)
    ensures Enabled(s, Crash(id))
    ensures var s' := Step(s, Crash(id));
            && s'.rows == s.rows && s'.log == s.log && s'.remote == s.remote && s'.invocations[id].pc.Crashed?
            && (InTransaction(s.invocations[id].pc) ==> s.invocations[id].req.key.run !in s'.locks)
  {
    assert s.remote + multiset{} == s.remote;
  }

  // ---- When a stored status is final

  /** Once the invocation that created a row is over, neither the row nor the key's log ever changes again. */
  lemma {:induction false} FrozenOnceOver(s: State, actions: seq<Action>, s': State, k: Key)
    requires Inv(s) && Leads(s, actions, s') && k in s.rows
    requires s.rows[k].creator in s.invocations && Over(s.invocations[s.rows[k].creator].pc)
    ensures k in s'.rows && s'.rows[k] == s.rows[k] && Log(s', k) == Log(s, k)
    decreases |actions|
  {
    if actions != [] {
      var a := actions[0];
      StepKeepsInv(s, a);
      OverStaysOver(s, a, k);
      FrozenOnceOver(Step(s, a), actions[1..], s', k);
    }
  }

  lemma OverStaysOver(s: State, a: Action, k: Key)
    requires Inv(s) && Enabled(s, a) && k in s.rows
    requires s.rows[k].creator in s.invocations && Over(s.invocations[s.rows[k].creator].pc)
    ensures var s' := Step(s, a);
            && k in s'.rows && s'.rows[k] == s.rows[k] && Log(s', k) == Log(s, k)
            && s'.rows[k].creator in s'.invocations && Over(s'.invocations[s'.rows[k].creator].pc)
  {
    if !a.Invoke? {
      StepFrame(s, a);
      if s.invocations[a.id].req.key == k {
        LaterInvocationsOnlyObserve(s, a);
      }
    }
  }

  /** The steps by which the creator of a completed row can still turn it into a failed one. */
  function Undoing(pc: Pc, id: nat): seq<Action> {
    match pc
    case Recorded(_) => [PersistStep(id, Rejected), Amend(id, Acknowledged)]
    case Stepped(_) => [AppendOutcome(id, Rejected), Amend(id, Acknowledged)]
    case _ => [Amend(id, Acknowledged)]
  }

  lemma AmendFails(s: State, k: Key)
    requires k in s.rows && s.rows[k].creator in s.invocations
    requires var i := s.invocations[s.rows[k].creator]; i.req.key == k && i.pc.Catching?
    ensures var a := Amend(s.rows[k].creator, Acknowledged);
            Enabled(s, a) && Leads(s, [a], Step(s, a)) && k in Step(s, a).rows && Step(s, a).rows[k].status.Failed?
  {
    assert [Amend(s.rows[k].creator, Acknowledged)][1..] == [];
  }

  lemma UndoCompleted(s: State, k: Key) returns (s': State)
    requires Inv(s) && k in s.rows && s.rows[k].status.Completed?
    requires s.rows[k].creator in s.invocations && !Over(s.invocations[s.rows[k].creator].pc)
    ensures Leads(s, Undoing(s.invocations[s.rows[k].creator].pc, s.rows[k].creator), s')
    ensures k in s'.rows && s'.rows[k].status.Failed?
  {
    assert RowInv(s, k);
    var id, pc := s.rows[k].creator, s.invocations[s.rows[k].creator].pc;
    var amend := Amend(id, Acknowledged);
    if pc.Catching? {
      AmendFails(s, k);
      s' := Step(s, amend);
    } else {
      var a := Undoing(pc, id)[0];
      StepFrame(s, a);
      AmendFails(Step(s, a), k);
      s' := Step(Step(s, a), amend);
      assert [a, amend][1..] == [amend];
    }
  }

  ghost predicate CompletedInEveryContinuation(s: State, k: Key) {
    forall actions, s' :: Leads(s, actions, s') ==> k in s'.rows && s'.rows[k].status.Completed?
  }

  /** A stored completion is final iff the invocation that stored it is over: it has returned, thrown or crashed. */
  lemma CompletedFinalIff(s: State, k: Key)
    requires Inv(s) && k in s.rows && s.rows[k].status.Completed?
    ensures s.rows[k].creator in s.invocations
    ensures CompletedInEveryContinuation(s, k) <==> Over(s.invocations[s.rows[k].creator].pc)
  {
    assert RowInv(s, k);
    if Over(s.invocations[s.rows[k].creator].pc) {
      forall actions, s' | Leads(s, actions, s') ensures k in s'.rows && s'.rows[k].status.Completed? {
        FrozenOnceOver(s, actions, s', k);
      }
    } else {
      var s' := UndoCompleted(s, k);
      assert Leads(s, Undoing(s.invocations[s.rows[k].creator].pc, s.rows[k].creator), s');
    }
  }
}
