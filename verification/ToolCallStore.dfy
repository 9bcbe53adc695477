/** The code of `src/ai/mcp/execution.ts` over its tables, and the proof that whatever it does is a run of the
    protocol's atomic steps. */
module ToolCallStore {
  import opened Prelude
  import opened Limits
  import opened ToolCalls

  /** What the outside world does to one invocation. */
  datatype Weather = Weather(
    commit: Write, announce: Write, connects: bool, answers: bool, isError: bool,
    record: Write, step: Write, outcome: Write, amend: Write, failure: Write)

  datatype Reservation = Created | Duplicate(row: Row) | Refused(error: Error)

  // ---- What one invocation comes to

  /** What the transaction decides, apart from how its commit ends. */
  function Verdict(runs: set<string>, rows: map<Key, Row>, req: Request): Reservation {
    if req.key.run !in runs then Refused(RunNotFound)
    else if req.key in rows then Decided(rows[req.key], req.digest)
    else Budgeted(rows, req)
  }

  function Decided(row: Row, digest: string): Reservation {
    if row.digest != digest then Refused(IdempotencyConflict) else Duplicate(row)
  }

  function Budgeted(rows: map<Key, Row>, req: Request): Reservation {
    if |ToolRows(rows, req.key.run, req.tool)| >= req.maxCalls then Refused(ToolLimit)
    else if |RunRows(rows, req.key.run)| >= MaxTotalToolCallsPerRun(req.env) then Refused(TotalLimit)
    else Created
  }

  /** A run with `calls` rows has room for one more: with fewer than 12 where the environment holds no number; otherwise
      with fewer than 32, if it has none yet or the environment's number is not below one more than it has. */
  predicate HasRoom(calls: nat, env: EnvNumber) {
    match env
    case NotFinite => calls < 12
    case Finite(number) => calls < 32 && (calls == 0 || (calls + 1) as real <= number)
  }

  lemma HasRoomIff(calls: nat, env: EnvNumber)
    ensures HasRoom(calls, env) <==> calls < MaxTotalToolCallsPerRun(env)
  {
    if env.Finite? && 1.0 <= env.value < 33.0 {
      var limit := MaxTotalToolCallsPerRun(env);
      assert calls + 1 <= limit ==> (calls + 1) as real <= limit as real;
      assert calls >= limit ==> (calls + 1) as real >= limit as real + 1.0;
    }
  }

  /** A call is admitted iff its run is known, its key is new, its tool has had fewer calls in the run than its limit,
      and the run has room. */
  lemma AdmittedIff(runs: set<string>, rows: map<Key, Row>, req: Request)
    ensures Verdict(runs, rows, req).Created? <==>
              && req.key.run in runs && req.key !in rows
              && |set k | k in rows && k.run == req.key.run && rows[k].tool == req.tool| < req.maxCalls
              && HasRoom(|set k | k in rows && k.run == req.key.run|, req.env)
  {
    assert RunRows(rows, req.key.run) == set k | k in rows && k.run == req.key.run;
    assert ToolRows(rows, req.key.run, req.tool)
        == set k | k in rows && k.run == req.key.run && rows[k].tool == req.tool;
    HasRoomIff(|RunRows(rows, req.key.run)|, req.env);
  }

  /** The reservation is committed and announced, so that the try block is entered. */
  predicate Enters(w: Weather) {
    w.commit.Acknowledged? && w.announce.Acknowledged?
  }

  predicate GetsAnswer(w: Weather) {
    w.connects && w.answers
  }

  /** The answer and the run step are recorded, so that the outcome comes to be logged. */
  predicate Records(w: Weather) {
    GetsAnswer(w) && w.record.Acknowledged? && w.step.Acknowledged?
  }

  /** The try block returns. */
  predicate Finishes(w: Weather) {
    Records(w) && w.outcome.Acknowledged? && !w.isError
  }

  function TriedStatus(w: Weather): Status {
    if GetsAnswer(w) && !w.record.Rejected? then (if w.isError then Failed else Completed) else Running
  }

  function FinalStatus(w: Weather): Status {
    if Enters(w) && !Finishes(w) && !w.amend.Rejected? then Failed
    else if Enters(w) then TriedStatus(w)
    else Running
  }

  function TriedEvents(w: Weather): seq<Event> {
    if Records(w) && !w.outcome.Rejected? then [if w.isError then CallFailed else CallCompleted] else []
  }

  function CaughtEvents(w: Weather): seq<Event> {
    if w.amend.Acknowledged? && !w.failure.Rejected? then [CallFailed] else []
  }

  function FinalEvents(w: Weather): seq<Event> {
    if !w.commit.Acknowledged? then []
    else
      (if w.announce.Rejected? then [] else [Started])
      + if Enters(w) then TriedEvents(w) + if Finishes(w) then [] else CaughtEvents(w) else []
  }

  /** What an invocation without a reservation of its own ends with. */
  function Denied(r: Reservation): Outcome
    requires !r.Created?
  {
    match r
    case Refused(error) => Threw(error)
    case Duplicate(row) => if row.status.Failed? then Threw(EarlierFailure) else Replayed(row.status)
  }

  function FinalOutcome(v: Reservation, w: Weather): Outcome {
    if !v.Created? then Denied(v) else if Enters(w) && Finishes(w) then Returned else Threw(Other)
  }

  /** Every write is acknowledged, and the tool answers without an error. */
  predicate Fair(w: Weather) {
    && w.commit.Acknowledged? && w.announce.Acknowledged? && w.connects && w.answers && !w.isError
    && w.record.Acknowledged? && w.step.Acknowledged? && w.outcome.Acknowledged?
  }

  /** An admitted call that meets no trouble returns, its row completed and its log started and completed; a returned
      call has met none. */
  lemma ReturnsIffFair(w: Weather)
    ensures FinalOutcome(Created, w).Returned? <==> Fair(w)
    ensures Fair(w) ==> FinalStatus(w).Completed? && FinalEvents(w) == [Started, CallCompleted]
  {
  }

  /** Setting the status of the one row a call owns. */
  function WithStatus(rows: map<Key, Row>, k: Key, status: Status): map<Key, Row>
    requires k in rows
  {
    rows[k := rows[k].(status := status)]
  }

  lemma InsertedWithStatus(rows: map<Key, Row>, k: Key, row: Row, status: Status)
    ensures WithStatus(rows[k := row], k, status) == rows[k := row.(status := status)]
  {
  }

  lemma WithStatusTwice(rows: map<Key, Row>, k: Key, first: Status, second: Status)
    requires k in rows
    ensures WithStatus(WithStatus(rows, k, first), k, second) == WithStatus(rows, k, second)
  {
  }

  lemma LogTwice(log: map<Key, seq<Event>>, k: Key, first: seq<Event>, second: seq<Event>)
    ensures NextLog(NextLog(log, k, first), k, second) == NextLog(log, k, first + second)
  {
    var events := if k in log then log[k] else [];
    assert (events + first) + second == events + (first + second);
    if first == [] {
      assert first + second == second;
    } else if second == [] {
      assert first + second == first;
    } else {
      assert NextLog(log, k, first)[k] == events + first;
    }
  }

  /** The database tables, the remote side, and what each invocation has got to. */
  class Store {
    const runs: set<string>
    var rows: map<Key, Row>
    var log: map<Key, seq<Event>>
    var remote: multiset<Key>
    var locks: map<string, nat>
    ghost var invocations: map<nat, Invocation>

    constructor (runs: set<string>)
      ensures Now() == Init(runs)
    {
      this.runs := runs;
      rows, log, remote, locks, invocations := map[], map[], multiset{}, map[], map[];
    }

    ghost function Now(): State
      reads this
    {
      State(runs, locks, rows, log, remote, invocations)
    }

    ghost predicate At(id: nat, req: Request, pc: Pc)
      reads this
    {
      id in invocations && invocations[id] == Invocation(req, pc)
    }

    /** The fields show the effect of `a` on `s`; let the invocation move on. */
    ghost method Did(s0: State, actions: seq<Action>, s: State, a: Action) returns (actions': seq<Action>)
      requires Leads(s0, actions, s) && Enabled(s, a) && !a.Invoke?
      requires Now() == Step(s, a).(invocations := s.invocations)
      modifies this`invocations
      ensures Now() == Step(s, a) && Leads(s0, actions', Now())
    {
      invocations := Step(s, a).invocations;
      actions' := actions + [a];
      assert Leads(s, [a], Step(s, a)) by {
        assert [a][1..] == [];
      }
      LeadsOn(s0, actions, s, [a], Step(s, a));
    }

    // ---- Primitive writes

    method AppendRunEvent(k: Key, event: Event, w: Write) returns (ok: bool)
      modifies this`log
      ensures log == NextLog(old(log), k, if w.Rejected? then [] else [event]) && ok == w.Acknowledged?
    {
      if !w.Rejected? {
        log := log[k := (if k in log then log[k] else []) + [event]];
      }
      ok := w.Acknowledged?;
    }

    method UpdateCall(k: Key, id: nat, status: Status, w: Write) returns (ok: bool)
      modifies this`rows
      ensures ok == w.Acknowledged?
      ensures rows == if k in old(rows) && old(rows)[k].creator == id && !w.Rejected?
                      then old(rows)[k := old(rows)[k].(status := status)] else old(rows)
    {
      if k in rows && rows[k].creator == id && !w.Rejected? {
        rows := rows[k := rows[k].(status := status)];
      }
      ok := w.Acknowledged?;
    }

    method Unlock(run: string)
      modifies this`locks
      ensures locks == Without(old(locks), run)
    {
      locks := Without(locks, run);
    }

    // ---- reserveCall

    method LockRunRow(id: nat, req: Request, ghost s0: State, ghost actions: seq<Action>)
      returns (found: bool, ghost actions': seq<Action>)
      requires At(id, req, Entering) && req.key.run !in locks && Leads(s0, actions, Now())
      modifies this`locks, this`invocations
      ensures Leads(s0, actions', Now()) && found == (req.key.run in runs)
      ensures At(id, req, if found then Locked else Done(Threw(RunNotFound)))
      ensures locks == if found then old(locks)[req.key.run := id] else old(locks)
    {
      ghost var s := Now();
      found := req.key.run in runs;
      if found {
        locks := locks[req.key.run := id];
      }
      actions' := Did(s0, actions, s, LockRun(id));
    }

    method FindDuplicate(id: nat, req: Request, ghost s0: State, ghost actions: seq<Action>)
      returns (found: bool, ghost actions': seq<Action>)
      requires At(id, req, Locked) && req.key.run in locks && locks[req.key.run] == id && Leads(s0, actions, Now())
      modifies this`locks, this`invocations
      ensures Leads(s0, actions', Now()) && found == (req.key in rows)
      ensures At(id, req, if found then Done(Observe(rows[req.key], req.digest)) else Fresh)
      ensures locks == if found then Without(old(locks), req.key.run) else old(locks)
    {
      ghost var s := Now();
      found := req.key in rows;
      if found {
        Unlock(req.key.run);
      }
      actions' := Did(s0, actions, s, ReadDuplicate(id));
    }

    method CheckBudgets(id: nat, req: Request, ghost s0: State, ghost actions: seq<Action>)
      returns (toolFull: bool, runFull: bool, ghost actions': seq<Action>)
      requires At(id, req, Fresh) && req.key.run in locks && locks[req.key.run] == id && Leads(s0, actions, Now())
      modifies this`locks, this`invocations
      ensures Leads(s0, actions', Now())
      ensures toolFull == (|ToolRows(rows, req.key.run, req.tool)| >= req.maxCalls)
      ensures runFull == (|RunRows(rows, req.key.run)| >= MaxTotalToolCallsPerRun(req.env))
      ensures At(id, req, if toolFull then Done(Threw(ToolLimit))
                          else if runFull then Done(Threw(TotalLimit)) else Admitted)
      ensures locks == if toolFull || runFull then Without(old(locks), req.key.run) else old(locks)
    {
      ghost var s := Now();
      toolFull := |ToolRows(rows, req.key.run, req.tool)| >= req.maxCalls;
      runFull := |RunRows(rows, req.key.run)| >= MaxTotalToolCallsPerRun(req.env);
      if toolFull || runFull {
        Unlock(req.key.run);
      }
      actions' := Did(s0, actions, s, ReadCounts(id));
    }

    method InsertAndCommit(id: nat, req: Request, w: Write, ghost s0: State, ghost actions: seq<Action>)
      returns (ghost actions': seq<Action>)
      requires At(id, req, Admitted) && Leads(s0, actions, Now())
      modifies this`rows, this`locks, this`invocations
      ensures Leads(s0, actions', Now()) && At(id, req, if w.Acknowledged? then Reserved else Done(Threw(Other)))
      ensures locks == Without(old(locks), req.key.run)
      ensures rows == if w.Rejected? then old(rows) else old(rows)[req.key := Row(req.tool, req.digest, Running, id)]
    {
      ghost var s := Now();
      if !w.Rejected? {
        rows := rows[req.key := Row(req.tool, req.digest, Running, id)];
      }
      Unlock(req.key.run);
      actions' := Did(s0, actions, s, Commit(id, w));
    }

    /** The part of the transaction that only reads. */
    method Admit(id: nat, req: Request, ghost s0: State, ghost actions: seq<Action>)
      returns (r: Reservation, ghost actions': seq<Action>)
      requires At(id, req, Locked) && req.key.run in locks && locks[req.key.run] == id && Leads(s0, actions, Now())
      modifies this`locks, this`invocations
      ensures Leads(s0, actions', Now())
      ensures r == if req.key in rows then Decided(rows[req.key], req.digest) else Budgeted(rows, req)
      ensures locks == if r.Created? then old(locks) else Without(old(locks), req.key.run)
      ensures At(id, req, if r.Created? then Admitted else Done(Denied(r)))
    {
      var duplicate, toolFull, runFull;
      duplicate, actions' := FindDuplicate(id, req, s0, actions);
      if duplicate {
        var row := rows[req.key];
        return if row.digest != req.digest then Refused(IdempotencyConflict) else Duplicate(row), actions';
      }
      toolFull, runFull, actions' := CheckBudgets(id, req, s0, actions');
      r := if toolFull then Refused(ToolLimit) else if runFull then Refused(TotalLimit) else Created;
    }

    method ReserveCall(id: nat, req: Request, commit: Write, ghost s0: State, ghost actions: seq<Action>)
      returns (r: Reservation, ghost actions': seq<Action>)
      requires At(id, req, Entering) && req.key.run !in locks && Leads(s0, actions, Now())
      modifies this`rows, this`locks, this`invocations
      ensures Leads(s0, actions', Now()) && locks == old(locks)
      ensures var v := Verdict(runs, old(rows), req);
              && r == (if v.Created? && !commit.Acknowledged? then Refused(Other) else v)
              && rows == if v.Created? && !commit.Rejected?
                         then old(rows)[req.key := Row(req.tool, req.digest, Running, id)] else old(rows)
      ensures At(id, req, if r.Created? then Reserved else Done(Denied(r)))
      ensures r.Created? <==>
                && req.key.run in runs && req.key !in old(rows)
                && |set k | k in old(rows) && k.run == req.key.run && old(rows)[k].tool == req.tool| < req.maxCalls
                && HasRoom(|set k | k in old(rows) && k.run == req.key.run|, req.env) && commit.Acknowledged?
    {
      AdmittedIff(runs, rows, req);
      ghost var unlocked := locks;
      var found;
      found, actions' := LockRunRow(id, req, s0, actions);
      if !found {
        return Refused(RunNotFound), actions';
      }
      assert Without(unlocked[req.key.run := id], req.key.run) == unlocked;
      r, actions' := Admit(id, req, s0, actions');
      if r.Created? {
        actions' := InsertAndCommit(id, req, commit, s0, actions');
        r := if commit.Acknowledged? then Created else Refused(Other);
      }
    }

    // ---- executeMcpToolIdempotent

    ghost predicate OwnsRow(k: Key, id: nat)
      reads this
    {
      k in rows && rows[k].creator == id
    }

    method ConnectAndCall(id: nat, req: Request, connects: bool, ghost s0: State, ghost actions: seq<Action>)
      returns (ghost actions': seq<Action>)
      requires At(id, req, Announced) && Leads(s0, actions, Now())
      modifies this`remote, this`invocations
      ensures Leads(s0, actions', Now()) && At(id, req, if connects then Calling else Catching)
      ensures remote == old(remote) + if connects then multiset{req.key} else multiset{}
    {
      ghost var s := Now();
      if connects {
        remote := remote + multiset{req.key};
      }
      actions' := Did(s0, actions, s, Connect(id, connects));
    }

    method CallTool(id: nat, req: Request, weather: Weather, ghost s0: State, ghost actions: seq<Action>)
      returns (answered: bool, ghost actions': seq<Action>)
      requires At(id, req, Announced) && Leads(s0, actions, Now())
      modifies this`remote, this`invocations
      ensures Leads(s0, actions', Now()) && At(id, req, if answered then Answered(weather.isError) else Catching)
      ensures answered == GetsAnswer(weather)
      ensures remote == old(remote) + if weather.connects then multiset{req.key} else multiset{}
    {
      actions' := ConnectAndCall(id, req, weather.connects, s0, actions);
      answered := weather.connects && weather.answers;
      if weather.connects {
        ghost var s := Now();
        actions' := Did(s0, actions', s, Answer(id, weather.answers, weather.isError));
      }
    }

    method RecordAnswer(id: nat, req: Request, isError: bool, w: Write, ghost s0: State, ghost actions: seq<Action>)
      returns (ok: bool, ghost actions': seq<Action>)
      requires At(id, req, Answered(isError)) && OwnsRow(req.key, id) && Leads(s0, actions, Now())
      modifies this`rows, this`invocations
      ensures Leads(s0, actions', Now()) && ok == w.Acknowledged?
      ensures At(id, req, if ok then Recorded(isError) else Catching)
      ensures rows == if w.Rejected? then old(rows)
                      else WithStatus(old(rows), req.key, if isError then Failed else Completed)
    {
      ghost var s := Now();
      ok := UpdateCall(req.key, id, if isError then Failed else Completed, w);
      actions' := Did(s0, actions, s, Record(id, w));
    }

    method SaveStep(id: nat, req: Request, isError: bool, w: Write, ghost s0: State, ghost actions: seq<Action>)
      returns (ok: bool, ghost actions': seq<Action>)
      requires At(id, req, Recorded(isError)) && Leads(s0, actions, Now())
      modifies this`invocations
      ensures Leads(s0, actions', Now()) && ok == w.Acknowledged?
      ensures At(id, req, if ok then Stepped(isError) else Catching)
    {
      ghost var s := Now();
      actions' := Did(s0, actions, s, PersistStep(id, w));
      ok := w.Acknowledged?;
    }

    method LogOutcome(id: nat, req: Request, isError: bool, w: Write, ghost s0: State, ghost actions: seq<Action>)
      returns (ok: bool, ghost actions': seq<Action>)
      requires At(id, req, Stepped(isError)) && Leads(s0, actions, Now())
      modifies this`log, this`invocations
      ensures Leads(s0, actions', Now()) && ok == w.Acknowledged?
      ensures At(id, req, if ok && !isError then Done(Returned) else Catching)
      ensures log == NextLog(old(log), req.key,
                             if w.Rejected? then [] else [if isError then CallFailed else CallCompleted])
    {
      ghost var s := Now();
      ok := AppendRunEvent(req.key, if isError then CallFailed else CallCompleted, w);
      actions' := Did(s0, actions, s, AppendOutcome(id, w));
    }

    /** The try block from the answer on. */
    method KeepBooks(id: nat, req: Request, weather: Weather, ghost s0: State, ghost actions: seq<Action>)
      returns (ok: bool, ghost actions': seq<Action>)
      requires At(id, req, Answered(weather.isError)) && OwnsRow(req.key, id) && Leads(s0, actions, Now())
      requires GetsAnswer(weather)
      modifies this`rows, this`log, this`invocations
      ensures Leads(s0, actions', Now()) && At(id, req, if Finishes(weather) then Done(Returned) else Catching)
      ensures ok == (Records(weather) && weather.outcome.Acknowledged?)
      ensures rows == if weather.record.Rejected? then old(rows)
              else WithStatus(old(rows), req.key, TriedStatus(weather))
      ensures log == NextLog(old(log), req.key, TriedEvents(weather))
    {
      ok, actions' := RecordAnswer(id, req, weather.isError, weather.record, s0, actions);
      if ok {
        ok, actions' := SaveStep(id, req, weather.isError, weather.step, s0, actions');
        if ok {
          ok, actions' := LogOutcome(id, req, weather.isError, weather.outcome, s0, actions');
        }
      }
    }

    /** The try block; `returned` tells whether it ran to its end. */
    method TryCall(id: nat, req: Request, weather: Weather, ghost s0: State, ghost actions: seq<Action>)
      returns (returned: bool, ghost actions': seq<Action>)
      requires At(id, req, Announced) && OwnsRow(req.key, id) && rows[req.key].status.Running?
      requires Leads(s0, actions, Now())
      modifies this`rows, this`log, this`remote, this`invocations
      ensures Leads(s0, actions', Now()) && At(id, req, if returned then Done(Returned) else Catching)
      ensures returned == Finishes(weather)
      ensures rows == WithStatus(old(rows), req.key, TriedStatus(weather))
      ensures log == NextLog(old(log), req.key, TriedEvents(weather))
      ensures remote == old(remote) + if weather.connects then multiset{req.key} else multiset{}
    {
      var ok;
      assert WithStatus(rows, req.key, Running) == rows;
      ok, actions' := CallTool(id, req, weather, s0, actions);
      if ok {
        ok, actions' := KeepBooks(id, req, weather, s0, actions');
      }
      returned := ok && !weather.isError;
    }

    method AmendRow(id: nat, req: Request, w: Write, ghost s0: State, ghost actions: seq<Action>)
      returns (ok: bool, ghost actions': seq<Action>)
      requires At(id, req, Catching) && OwnsRow(req.key, id) && Leads(s0, actions, Now())
      modifies this`rows, this`invocations
      ensures Leads(s0, actions', Now()) && ok == w.Acknowledged?
      ensures At(id, req, if ok then Amended else Done(Threw(Other)))
      ensures rows == if w.Rejected? then old(rows) else WithStatus(old(rows), req.key, Failed)
    {
      ghost var s := Now();
      ok := UpdateCall(req.key, id, Failed, w);
      actions' := Did(s0, actions, s, Amend(id, w));
    }

    /** The catch block. */
    method CatchCall(id: nat, req: Request, weather: Weather, ghost s0: State, ghost actions: seq<Action>)
      returns (ghost actions': seq<Action>)
      requires At(id, req, Catching) && OwnsRow(req.key, id) && Leads(s0, actions, Now())
      modifies this`rows, this`log, this`invocations
      ensures Leads(s0, actions', Now()) && At(id, req, Done(Threw(Other)))
      ensures rows == if weather.amend.Rejected? then old(rows) else WithStatus(old(rows), req.key, Failed)
      ensures log == NextLog(old(log), req.key, CaughtEvents(weather))
    {
      var ok;
      ok, actions' := AmendRow(id, req, weather.amend, s0, actions);
      if ok {
        ghost var s := Now();
        ok := AppendRunEvent(req.key, CallFailed, weather.failure);
        actions' := Did(s0, actions', s, AppendFailure(id, weather.failure));
      }
    }

    method LogStart(id: nat, req: Request, w: Write, ghost s0: State, ghost actions: seq<Action>)
      returns (ok: bool, ghost actions': seq<Action>)
      requires At(id, req, Reserved) && Leads(s0, actions, Now())
      modifies this`log, this`invocations
      ensures Leads(s0, actions', Now()) && ok == w.Acknowledged?
      ensures At(id, req, if ok then Announced else Done(Threw(Other)))
      ensures log == NextLog(old(log), req.key, if w.Rejected? then [] else [Started])
    {
      ghost var s := Now();
      ok := AppendRunEvent(req.key, Started, w);
      actions' := Did(s0, actions, s, Announce(id, w));
    }

    /** The try block and, unless it returns, the catch block. */
    method TryAndCatch(id: nat, req: Request, weather: Weather, ghost s0: State, ghost actions: seq<Action>)
      returns (returned: bool, ghost actions': seq<Action>)
      requires At(id, req, Announced) && OwnsRow(req.key, id) && rows[req.key].status.Running?
      requires Leads(s0, actions, Now())
      requires Enters(weather)
      modifies this`rows, this`log, this`remote, this`invocations
      ensures Leads(s0, actions', Now()) && At(id, req, Done(FinalOutcome(Created, weather)))
      ensures returned == Finishes(weather)
      ensures rows == WithStatus(old(rows), req.key, FinalStatus(weather))
      ensures log == NextLog(old(log), req.key,
                             TriedEvents(weather) + if Finishes(weather) then [] else CaughtEvents(weather))
      ensures remote == old(remote) + if weather.connects then multiset{req.key} else multiset{}
    {
      LogTwice(log, req.key, TriedEvents(weather), CaughtEvents(weather));
      WithStatusTwice(rows, req.key, TriedStatus(weather), Failed);
      assert TriedEvents(weather) + [] == TriedEvents(weather);
      returned, actions' := TryCall(id, req, weather, s0, actions);
      if !returned {
        actions' := CatchCall(id, req, weather, s0, actions');
      }
    }

    /** The call proper, once reserved. */
    method Perform(id: nat, req: Request, weather: Weather, ghost s0: State, ghost actions: seq<Action>)
      returns (outcome: Outcome, ghost actions': seq<Action>)
      requires At(id, req, Reserved) && OwnsRow(req.key, id) && rows[req.key].status.Running?
      requires Leads(s0, actions, Now())
      requires weather.commit.Acknowledged?
      modifies this`rows, this`log, this`remote, this`invocations
      ensures Leads(s0, actions', Now()) && At(id, req, Done(outcome))
      ensures outcome == FinalOutcome(Created, weather)
      ensures rows == WithStatus(old(rows), req.key, FinalStatus(weather))
      ensures log == NextLog(old(log), req.key, FinalEvents(weather))
      ensures remote == old(remote) + if Enters(weather) && weather.connects then multiset{req.key} else multiset{}
    {
      var ok, returned;
      var rest := if Enters(weather)
                  then TriedEvents(weather) + if Finishes(weather) then [] else CaughtEvents(weather) else [];
      LogTwice(log, req.key, if weather.announce.Rejected? then [] else [Started], rest);
      ok, actions' := LogStart(id, req, weather.announce, s0, actions);
      if !ok {
        assert WithStatus(rows, req.key, Running) == rows;
        return Threw(Other), actions';
      }
      returned, actions' := TryAndCatch(id, req, weather, s0, actions');
      outcome := if returned then Returned else Threw(Other);
    }

    /** All of an invocation but its arrival. */
    method Proceed(id: nat, req: Request, weather: Weather, ghost s0: State, ghost actions: seq<Action>)
      returns (outcome: Outcome, ghost actions': seq<Action>)
      requires At(id, req, Entering) && req.key.run !in locks && Leads(s0, actions, Now())
      modifies this`rows, this`log, this`remote, this`locks, this`invocations
      ensures Leads(s0, actions', Now()) && locks == old(locks) && At(id, req, Done(outcome))
      ensures outcome == FinalOutcome(Verdict(runs, old(rows), req), weather)
      ensures rows == if Verdict(runs, old(rows), req).Created? && !weather.commit.Rejected?
                      then old(rows)[req.key := Row(req.tool, req.digest, FinalStatus(weather), id)] else old(rows)
      ensures log == NextLog(old(log), req.key,
                             if Verdict(runs, old(rows), req).Created? then FinalEvents(weather) else [])
      ensures remote == old(remote) + if Verdict(runs, old(rows), req).Created? && Enters(weather) && weather.connects
                                      then multiset{req.key} else multiset{}
    {
      var r;
      InsertedWithStatus(rows, req.key, Row(req.tool, req.digest, Running, id), FinalStatus(weather));
      r, actions' := ReserveCall(id, req, weather.commit, s0, actions);
      if r.Created? {
        outcome, actions' := Perform(id, req, weather, s0, actions');
      } else if r.Duplicate? {
        outcome := if r.row.status.Failed? then Threw(EarlierFailure) else Replayed(r.row.status);
      } else {
        outcome := Threw(r.error);
      }
    }

    /** One invocation from beginning to end, whatever goes wrong on its way: what it does to the tables is a run of
        the protocol, it ends where the protocol says, and the row, the events and the remote call it leaves are exactly
        those its verdict and the weather call for. An admitted call that meets no trouble returns, completed. */
    method ExecuteIdempotent(id: nat, req: Request, weather: Weather)
      returns (outcome: Outcome, ghost actions: seq<Action>)
      requires id !in invocations && req.key.run !in locks
      modifies this`rows, this`log, this`remote, this`locks, this`invocations
      ensures Leads(old(Now()), actions, Now()) && locks == old(locks) && At(id, req, Done(outcome))
      ensures outcome == FinalOutcome(Verdict(runs, old(rows), req), weather)
      ensures rows == if Verdict(runs, old(rows), req).Created? && !weather.commit.Rejected?
                      then old(rows)[req.key := Row(req.tool, req.digest, FinalStatus(weather), id)] else old(rows)
      ensures log == NextLog(old(log), req.key,
                             if Verdict(runs, old(rows), req).Created? then FinalEvents(weather) else [])
      ensures remote == old(remote) + if Verdict(runs, old(rows), req).Created? && Enters(weather) && weather.connects
                                      then multiset{req.key} else multiset{}
      ensures Verdict(runs, old(rows), req).Created? && Fair(weather) ==>
                outcome.Returned? && rows[req.key].status.Completed?
                && Log(Now(), req.key) == Log(old(Now()), req.key) + [Started, CallCompleted]
    {
      ghost var s0 := Now();
      invocations := invocations[id := Invocation(req, Entering)];
      actions := [Invoke(id, req)];
      assert Leads(s0, actions, Now()) by {
        assert actions[1..] == [];
      }
      outcome, actions := Proceed(id, req, weather, s0, actions);
      ReturnsIffFair(weather);
    }
  }
}
