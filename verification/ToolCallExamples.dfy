/** Runs of one invocation that show what the tool-call protocol does not promise. */
module ToolCallExamples {
  import opened Prelude
  import opened Limits
  import opened ToolCalls

  function Sample(): Request {
    Request(Key("run", "call"), "tool", "digest", 1, NotFinite)
  }

  /** The sample invocation alone: at `pc`, with its row, log and remote calls. */
  function Alone(pc: Pc, rows: map<Key, Row>, log: seq<Event>, called: bool): State {
    State({"run"}, if InTransaction(pc) then map["run" := 0] else map[], rows,
          if log == [] then map[] else map[Sample().key := log], if called then multiset{Sample().key} else multiset{},
          map[0 := Invocation(Sample(), pc)])
  }

  function SampleRow(status: Status): map<Key, Row> {
    map[Sample().key := Row("tool", "digest", status, 0)]
  }

  /** Nothing goes wrong on our side: no write fails or is lost, the connection stands, nobody aborts or crashes. */
  predicate Smooth(a: Action) {
    match a
    case Commit(_, w) => w.Acknowledged?
    case Announce(_, w) => w.Acknowledged?
    case Connect(_, ok) => ok
    case Answer(_, ok, _) => ok
    case Record(_, w) => w.Acknowledged?
    case PersistStep(_, w) => w.Acknowledged?
    case AppendOutcome(_, w) => w.Acknowledged?
    case Amend(_, w) => w.Acknowledged?
    case AppendFailure(_, w) => w.Acknowledged?
    case AbortReserve(_) => false
    case Crash(_) => false
    case _ => true
  }

  predicate AllSmooth(actions: seq<Action>) {
    forall i :: 0 <= i < |actions| ==> Smooth(actions[i])
  }

  lemma Then(s: State, actions: seq<Action>, s': State, a: Action) returns (actions': seq<Action>)
    requires Leads(s, actions, s') && Enabled(s', a)
    ensures Leads(s, actions', Step(s', a)) && actions' == actions + [a]
  {
    actions' := actions + [a];
    assert Leads(s', [a], Step(s', a)) by {
      assert [a][1..] == [];
    }
    LeadsOn(s, actions, s', [a], Step(s', a));
  }

  lemma AloneLogs(log: seq<Event>, events: seq<Event>)
    ensures NextLog(if log == [] then map[] else map[Sample().key := log], Sample().key, events)
            == if log + events == [] then map[] else map[Sample().key := log + events]
  {
    assert log + [] == log;
  }

  lemma AloneLocks(from: Pc, to: Pc)
    ensures NextLocks(if InTransaction(from) then map["run" := 0] else map[], 0, "run", from, to)
            == if InTransaction(to) then map["run" := 0] else map[]
  {
  }

  lemma AloneSteps(pc: Pc, rows: map<Key, Row>, log: seq<Event>, called: bool, a: Action)
    requires Enabled(Alone(pc, rows, log, called), a) && !a.Invoke? && !(called && Calls(a))
    ensures var s := Alone(pc, rows, log, called);
            Step(s, a) == Alone(Next(s, s.invocations[0], a), NextRows(rows, 0, s.invocations[0], a),
                                log + Logged(pc, a), called || Calls(a))
  {
    var s := Alone(pc, rows, log, called);
    var to := Next(s, s.invocations[0], a);
    AloneLogs(log, Logged(pc, a));
    AloneLocks(pc, to);
    assert s.invocations[0 := Invocation(Sample(), to)] == map[0 := Invocation(Sample(), to)];
    assert multiset{} + multiset{Sample().key} == multiset{Sample().key};
  }

  lemma Go(actions: seq<Action>, pc: Pc, rows: map<Key, Row>, log: seq<Event>, called: bool, a: Action)
    returns (actions': seq<Action>)
    requires Leads(Init({"run"}), actions, Alone(pc, rows, log, called))
    requires Enabled(Alone(pc, rows, log, called), a) && !a.Invoke? && !(called && Calls(a))
    ensures var s := Alone(pc, rows, log, called);
            Leads(Init({"run"}), actions',
                  Alone(Next(s, s.invocations[0], a), NextRows(rows, 0, s.invocations[0], a),
                        log + Logged(pc, a), called || Calls(a)))
    ensures actions' == actions + [a]
  {
    AloneSteps(pc, rows, log, called, a);
    actions' := Then(Init({"run"}), actions, Alone(pc, rows, log, called), a);
  }

  /** An invocation met by no trouble reserves its call. */
  lemma ReachReserved() returns (actions: seq<Action>)
    ensures AllSmooth(actions)
    ensures Leads(Init({"run"}), actions, Alone(Reserved, SampleRow(Running), [], false))
  {
    var s0 := Init({"run"});
    actions := Then(s0, [], s0, Invoke(0, Sample()));
    actions := Then(s0, actions, Step(s0, Invoke(0, Sample())), LockRun(0));
    assert Step(Step(s0, Invoke(0, Sample())), LockRun(0)) == Alone(Locked, map[], [], false);
    actions := Go(actions, Locked, map[], [], false, ReadDuplicate(0));
    assert ToolRows(map[], "run", "tool") == {} && RunRows(map[], "run") == {};
    actions := Go(actions, Fresh, map[], [], false, ReadCounts(0));
    actions := Go(actions, Admitted, map[], [], false, Commit(0, Acknowledged));
  }

  function StatusOf(isError: bool): Status {
    if isError then Failed else Completed
  }

  /** It calls the tool, gets an answer and records it. */
  lemma ReachCalling() returns (actions: seq<Action>)
    ensures AllSmooth(actions)
    ensures Leads(Init({"run"}), actions, Alone(Calling, SampleRow(Running), [Started], true))
  {
    assert [] + [Started] == [Started] && [Started] + [] == [Started];
    actions := ReachReserved();
    actions := Go(actions, Reserved, SampleRow(Running), [], false, Announce(0, Acknowledged));
    actions := Go(actions, Announced, SampleRow(Running), [Started], false, Connect(0, true));
  }

  lemma ReachRecorded(isError: bool) returns (actions: seq<Action>)
    ensures AllSmooth(actions)
    ensures Leads(Init({"run"}), actions, Alone(Recorded(isError), SampleRow(StatusOf(isError)), [Started], true))
  {
    assert [Started] + [] == [Started];
    actions := ReachCalling();
    actions := Go(actions, Calling, SampleRow(Running), [Started], true, Answer(0, true, isError));
    actions := Go(actions, Answered(isError), SampleRow(Running), [Started], true, Record(0, Acknowledged));
    assert NextRows(SampleRow(Running), 0, Invocation(Sample(), Answered(isError)), Record(0, Acknowledged))
        == SampleRow(StatusOf(isError));
  }

  lemma ReachStepped(isError: bool) returns (actions: seq<Action>)
    ensures AllSmooth(actions)
    ensures Leads(Init({"run"}), actions, Alone(Stepped(isError), SampleRow(StatusOf(isError)), [Started], true))
  {
    assert [Started] + [] == [Started];
    actions := ReachRecorded(isError);
    actions := Go(actions, Recorded(isError), SampleRow(StatusOf(isError)), [Started], true,
                  PersistStep(0, Acknowledged));
  }

  /** The catch block runs: the row is set to `failed` and the failure is logged. */
  lemma CatchFrom(actions: seq<Action>, status: Status, log: seq<Event>) returns (actions': seq<Action>)
    requires Leads(Init({"run"}), actions, Alone(Catching, SampleRow(status), log, true))
    ensures Leads(Init({"run"}), actions', Alone(Done(Threw(Other)), SampleRow(Failed), log + [CallFailed], true))
    ensures actions' == actions + [Amend(0, Acknowledged), AppendFailure(0, Acknowledged)]
  {
    assert log + [] == log;
    actions' := Go(actions, Catching, SampleRow(status), log, true, Amend(0, Acknowledged));
    assert NextRows(SampleRow(status), 0, Invocation(Sample(), Catching), Amend(0, Acknowledged)) == SampleRow(Failed);
    actions' := Go(actions', Amended, SampleRow(Failed), log, true, AppendFailure(0, Acknowledged));
    assert actions' == actions + [Amend(0, Acknowledged), AppendFailure(0, Acknowledged)];
  }

  /** If the append of the completion takes effect but reports an error, the log ends up with both outcomes, so that
      `ToolCallLogs.BothOutcomesIff` has such runs. */
  lemma LostSuccessLogsBoth() returns (actions: seq<Action>, s: State)
    ensures Leads(Init({"run"}), actions, s)
    ensures CallCompleted in Log(s, Sample().key) && CallFailed in Log(s, Sample().key)
  {
    actions := ReachStepped(false);
    actions := Go(actions, Stepped(false), SampleRow(Completed), [Started], true, AppendOutcome(0, Lost));
    actions := CatchFrom(actions, Completed, [Started] + [CallCompleted]);
    s := Alone(Done(Threw(Other)), SampleRow(Failed), [Started] + [CallCompleted] + [CallFailed], true);
  }

  predicate Stored(s: State, status: Status) {
    Sample().key in s.rows && s.rows[Sample().key].status == status
  }

  /** A stored completion is not final by itself: when the run step cannot be saved, the catch block turns the row of
      a tool that did succeed into `failed`. */
  lemma StoredSuccessOverwritten() returns (before: seq<Action>, s: State, after: seq<Action>, s': State)
    ensures Leads(Init({"run"}), before, s) && Stored(s, Completed)
    ensures Leads(Init({"run"}), after, s') && Stored(s', Failed) && AllSmooth(before)
    ensures after == before + [PersistStep(0, Rejected), Amend(0, Acknowledged), AppendFailure(0, Acknowledged)]
  {
    before := ReachRecorded(false);
    s := Alone(Recorded(false), SampleRow(Completed), [Started], true);
    assert [Started] + [] == [Started];
    after := Go(before, Recorded(false), SampleRow(Completed), [Started], true, PersistStep(0, Rejected));
    after := CatchFrom(after, Completed, [Started]);
    s' := Alone(Done(Threw(Other)), SampleRow(Failed), [Started] + [CallFailed], true);
  }

  /** When the remote tool reports an error and nothing goes wrong besides, the failure is logged twice: before and
      inside the catch block. */
  lemma RemoteErrorLoggedTwice() returns (actions: seq<Action>, s: State)
    ensures Leads(Init({"run"}), actions, s) && AllSmooth(actions)
    ensures Log(s, Sample().key) == [Started, CallFailed, CallFailed]
  {
    actions := ReachStepped(true);
    actions := Go(actions, Stepped(true), SampleRow(Failed), [Started], true, AppendOutcome(0, Acknowledged));
    actions := CatchFrom(actions, Failed, [Started] + [CallFailed]);
    s := Alone(Done(Threw(Other)), SampleRow(Failed), [Started] + [CallFailed] + [CallFailed], true);
  }
}
