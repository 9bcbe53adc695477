/** The idempotent tool-call protocol of `src/ai/mcp/execution.ts` as atomic steps of any number of concurrent
    invocations. Every write to the database is a step of its own; between two steps anything else may happen. */
module ToolCalls {
  import opened Prelude
  import opened Limits

  datatype Key = Key(run: string, call: string)

  datatype Status = Running | Completed | Failed

  datatype Event = Started | CallCompleted | CallFailed

  /** A row of `mcp_tool_calls`; `creator` stands for its primary key, which only the inserting invocation holds. */
  datatype Row = Row(tool: string, digest: string, status: Status, creator: nat)

  /** What an invocation brings: the key, the digest of its arguments, and the two budgets it reads for itself. */
  datatype Request = Request(key: Key, tool: string, digest: string, maxCalls: int, env: EnvNumber)

  datatype Error = RunNotFound | IdempotencyConflict | ToolLimit | TotalLimit | EarlierFailure | Other

  datatype Outcome = Returned | Replayed(status: Status) | Threw(error: Error)

  datatype Pc =
    | Entering
    | Locked | Fresh | Admitted                                   // inside the transaction of `reserveCall`
    | Reserved | Announced | Calling                              // up to the remote call
    | Answered(isError: bool) | Recorded(isError: bool) | Stepped(isError: bool)
    | Catching | Amended                                          // inside the catch block
    | Done(outcome: Outcome) | Crashed

  datatype Invocation = Invocation(req: Request, pc: Pc)

  datatype State = State(
    runs: set<string>,
    locks: map<string, nat>,
    rows: map<Key, Row>,
    log: map<Key, seq<Event>>,
    remote: multiset<Key>,
    invocations: map<nat, Invocation>)

  datatype Action =
    | Invoke(id: nat, req: Request)
    | LockRun(id: nat)
    | ReadDuplicate(id: nat)
    | ReadCounts(id: nat)
    | Commit(id: nat, write: Write)
    | AbortReserve(id: nat)
    | Announce(id: nat, write: Write)
    | Connect(id: nat, ok: bool)
    | Answer(id: nat, ok: bool, isError: bool)
    | Record(id: nat, write: Write)
    | PersistStep(id: nat, write: Write)
    | AppendOutcome(id: nat, write: Write)
    | Amend(id: nat, write: Write)
    | AppendFailure(id: nat, write: Write)
    | Crash(id: nat)

  function Log(s: State, k: Key): seq<Event> {
    if k in s.log then s.log[k] else []
  }

  function RunRows(rows: map<Key, Row>, run: string): set<Key> {
    set k | k in rows && k.run == run
  }

  function ToolRows(rows: map<Key, Row>, run: string, tool: string): set<Key> {
    set k | k in rows && k.run == run && rows[k].tool == tool
  }

  predicate InTransaction(pc: Pc) {
    pc.Locked? || pc.Fresh? || pc.Admitted?
  }

  predicate Over(pc: Pc) {
    pc.Done? || pc.Crashed?
  }

  predicate Enabled(s: State, a: Action) {
    if a.Invoke? then a.id !in s.invocations
    else
      a.id in s.invocations
      && var pc, run := s.invocations[a.id].pc, s.invocations[a.id].req.key.run;
         match a
         case LockRun(_) => pc.Entering? && run !in s.locks
         case ReadDuplicate(_) => pc.Locked?
         case ReadCounts(_) => pc.Fresh?
         case Commit(_, _) => pc.Admitted?
         case AbortReserve(_) => InTransaction(pc)
         case Announce(_, _) => pc.Reserved?
         case Connect(_, _) => pc.Announced?
         case Answer(_, _, _) => pc.Calling?
         case Record(_, _) => pc.Answered?
         case PersistStep(_, _) => pc.Recorded?
         case AppendOutcome(_, _) => pc.Stepped?
         case Amend(_, _) => pc.Catching?
         case AppendFailure(_, _) => pc.Amended?
         case Crash(_) => !Over(pc)
  }

  /** What a later invocation makes of the row it finds. */
  function Observe(row: Row, digest: string): Outcome {
    if row.digest != digest then Threw(IdempotencyConflict)
    else if row.status.Failed? then Threw(EarlierFailure)
    else Replayed(row.status)
  }

  /** Control flow up to the commit of `reserveCall`, which reads the database. */
  function ReserveNext(s: State, req: Request, a: Action): Pc {
    var k := req.key;
    match a
    case LockRun(_) => if k.run in s.runs then Locked else Done(Threw(RunNotFound))
    case ReadDuplicate(_) => if k in s.rows then Done(Observe(s.rows[k], req.digest)) else Fresh
    case ReadCounts(_) =>
      if |ToolRows(s.rows, k.run, req.tool)| >= req.maxCalls then Done(Threw(ToolLimit))
      else if |RunRows(s.rows, k.run)| >= MaxTotalToolCallsPerRun(req.env) then Done(Threw(TotalLimit))
      else Admitted
    case Commit(_, w) => if w.Acknowledged? then Reserved else Done(Threw(Other))
    case AbortReserve(_) => Done(Threw(Other))
    case _ => Crashed
  }

  /** Control flow after the commit, with the try and catch blocks. */
  function ExecuteNext(pc: Pc, a: Action): Pc {
    match a
    case Announce(_, w) => if w.Acknowledged? then Announced else Done(Threw(Other))
    case Connect(_, ok) => if ok then Calling else Catching
    case Answer(_, ok, isError) => if ok then Answered(isError) else Catching
    case Record(_, w) => if w.Acknowledged? && pc.Answered? then Recorded(pc.isError) else Catching
    case PersistStep(_, w) => if w.Acknowledged? && pc.Recorded? then Stepped(pc.isError) else Catching
    case AppendOutcome(_, w) => if w.Acknowledged? && pc == Stepped(false) then Done(Returned) else Catching
    case Amend(_, w) => if w.Acknowledged? then Amended else Done(Threw(Other))
    case AppendFailure(_, _) => Done(Threw(Other))
    case _ => Crashed
  }

  predicate Reserving(a: Action) {
    a.LockRun? || a.ReadDuplicate? || a.ReadCounts? || a.Commit? || a.AbortReserve?
  }

  function Next(s: State, i: Invocation, a: Action): Pc {
    if Reserving(a) then ReserveNext(s, i.req, a) else ExecuteNext(i.pc, a)
  }

  predicate Inserts(a: Action) {
    a.Commit? && !a.write.Rejected?
  }

  /** The status a step writes into the invocation's own row, if it writes one. */
  function Written(pc: Pc, a: Action): seq<Status> {
    if a.Record? && pc.Answered? && !a.write.Rejected? then [if pc.isError then Failed else Completed]
    else if a.Amend? && !a.write.Rejected? then [Failed]
    else []
  }

  /** The event a step appends to the run's log, if it appends one. */
  function Logged(pc: Pc, a: Action): seq<Event> {
    if a.Announce? && !a.write.Rejected? then [Started]
    else if a.AppendOutcome? && pc.Stepped? && !a.write.Rejected? then
      [if pc.isError then CallFailed else CallCompleted]
    else if a.AppendFailure? && !a.write.Rejected? then [CallFailed]
    else []
  }

  predicate Calls(a: Action) {
    a.Connect? && a.ok
  }

  function NextRows(rows: map<Key, Row>, id: nat, i: Invocation, a: Action): map<Key, Row> {
    var k := i.req.key;
    if Inserts(a) then rows[k := Row(i.req.tool, i.req.digest, Running, id)]
    else if k in rows && rows[k].creator == id && Written(i.pc, a) != []
    then rows[k := rows[k].(status := Written(i.pc, a)[0])]
    else rows
  }

  function Without(locks: map<string, nat>, run: string): map<string, nat> {
    map r | r in locks && r != run :: locks[r]
  }

  /** The lock of the run is held exactly while the invocation is inside its transaction. */
  function NextLocks(locks: map<string, nat>, id: nat, run: string, from: Pc, to: Pc): map<string, nat> {
    if InTransaction(to) then locks[run := id]
    else if InTransaction(from) then Without(locks, run)
    else locks
  }

  function NextLog(log: map<Key, seq<Event>>, k: Key, events: seq<Event>): map<Key, seq<Event>> {
    if events == [] then log else log[k := (if k in log then log[k] else []) + events]
  }

  function Step(s: State, a: Action): State
    requires Enabled(s, a)
  {
    if a.Invoke? then s.(invocations := s.invocations[a.id := Invocation(a.req, Entering)])
    else
      var i := s.invocations[a.id];
      var k, pc := i.req.key, Next(s, i, a);
      State(s.runs,
            NextLocks(s.locks, a.id, k.run, i.pc, pc),
            NextRows(s.rows, a.id, i, a),
            NextLog(s.log, k, Logged(i.pc, a)),
            s.remote + (if Calls(a) then multiset{k} else multiset{}),
            s.invocations[a.id := i.(pc := pc)])
  }

  function Init(runs: set<string>): State {
    State(runs, map[], map[], map[], multiset{}, map[])
  }

  /** `actions` can happen one after the other from `s` and lead to `s'`. */
  ghost predicate Leads(s: State, actions: seq<Action>, s': State)
    decreases |actions|
  {
    if actions == [] then s' == s
    else Enabled(s, actions[0]) && Leads(Step(s, actions[0]), actions[1..], s')
  }

  lemma {:induction false} LeadsOn(s: State, first: seq<Action>, s': State, second: seq<Action>, s'': State)
    requires Leads(s, first, s') && Leads(s', second, s'')
    ensures Leads(s, first + second, s'')
    decreases |first|
  {
    if first == [] {
      assert first + second == second;
    } else {
      LeadsOn(Step(s, first[0]), first[1..], s', second, s'');
      assert (first + second)[1..] == first[1..] + second;
    }
  }
}
