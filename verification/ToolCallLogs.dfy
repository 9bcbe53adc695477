/** The event log of a tool call, over all interleavings, failures and crashes. */
module ToolCallLogs {
  import opened ToolCalls
  import opened ToolCallTheorems

  /** How far a run has come in telling the outcome of a call: not beyond the ordinary, or told by an append after which
      the invocation went into its catch block, or told there once more. */
  datatype Stage = Ordinary | Told(isError: bool) | ToldAgain(isError: bool)

  function EventOf(isError: bool): Event {
    if isError then CallFailed else CallCompleted
  }

  /** The outcome is logged, and yet the invocation goes on to its catch block: the tool reported an error, or the
      append reported one. */
  predicate TellsAndThrows(s: State, a: Action, k: Key) {
    a.AppendOutcome? && a.id in s.invocations && s.invocations[a.id].req.key == k && s.invocations[a.id].pc.Stepped?
    && !a.write.Rejected? && (s.invocations[a.id].pc.isError || a.write.Lost?)
  }

  predicate LogsFailure(s: State, a: Action, k: Key) {
    a.AppendFailure? && !a.write.Rejected? && a.id in s.invocations && s.invocations[a.id].req.key == k
  }

  function NextStage(s: State, a: Action, k: Key, stage: Stage): Stage {
    if stage.Ordinary? && TellsAndThrows(s, a, k) then Told(s.invocations[a.id].pc.isError)
    else if stage.Told? && LogsFailure(s, a, k) then ToldAgain(stage.isError)
    else stage
  }

  ghost function StageAfter(s: State, actions: seq<Action>, k: Key, stage: Stage): Stage
    decreases |actions|
  {
    if actions == [] || !Enabled(s, actions[0]) then stage
    else StageAfter(Step(s, actions[0]), actions[1..], k, NextStage(s, actions[0], k, stage))
  }

  // ---- The log at each stage

  predicate Ended(pc: Pc) {
    Over(pc) && !(pc.Done? && pc.outcome.Returned?)
  }

  /** Log and control of the creator go together, where `told` is what was logged on the way into the catch block. */
  predicate Story(pc: Pc, log: seq<Event>, stage: Stage) {
    match stage
    case Ordinary =>
      (match pc
       case Reserved => log == []
       case Announced | Calling | Answered(_) | Recorded(_) | Stepped(_) | Catching | Amended => log == [Started]
       case Done(outcome) =>
         if outcome.Returned? then log == [Started, CallCompleted] else log in {[], [Started], [Started, CallFailed]}
       case _ => log in {[], [Started], [Started, CallFailed]})
    case Told(isError) => (pc.Catching? || pc.Amended? || Ended(pc)) && log == [Started, EventOf(isError)]
    case ToldAgain(isError) => Ended(pc) && log == [Started, EventOf(isError), CallFailed]
  }

  predicate StageInv(s: State, k: Key, stage: Stage) {
    if k in s.rows
    then s.rows[k].creator in s.invocations && Story(s.invocations[s.rows[k].creator].pc, Log(s, k), stage)
    else stage.Ordinary?
  }

  lemma CreatorTells(pc: Pc, log: seq<Event>, stage: Stage, s: State, a: Action)
    requires Enabled(s, a) && !a.Invoke? && s.invocations[a.id].pc == pc && Owns(pc)
    requires Story(pc, log, stage)
    ensures Story(Next(s, s.invocations[a.id], a), log + Logged(pc, a),
            NextStage(s, a, s.invocations[a.id].req.key, stage))
  {
    var added := Logged(pc, a);
    assert added == [] ==> log + added == log;
    assert [] + [Started] == [Started];
    assert [Started] + [CallFailed] == [Started, CallFailed];
    assert [Started] + [CallCompleted] == [Started, CallCompleted];
    assert stage.Told? ==> log + [CallFailed] == [Started, EventOf(stage.isError), CallFailed];
  }

  /** The creator of a row logs for its key, as long as it is not over. */
  lemma CreatorKeepsStage(s: State, a: Action, k: Key, stage: Stage)
    requires Inv(s) && StageInv(s, k, stage) && Enabled(s, a) && !a.Invoke?
    requires k in s.rows && s.rows[k].creator == a.id && s.invocations[a.id].req.key == k
    ensures StageInv(Step(s, a), k, NextStage(s, a, k, stage))
  {
    assert RowInv(s, k);
    RowsFrame(s, a);
    CreatorTells(s.invocations[a.id].pc, Log(s, k), stage, s, a);
    assert Log(s, k) + [] == Log(s, k);
  }

  /** What another invocation of the key does is not logged. */
  lemma BystanderKeepsStage(s: State, a: Action, k: Key, stage: Stage)
    requires Inv(s) && StageInv(s, k, stage) && Enabled(s, a) && !a.Invoke?
    requires k in s.rows && s.rows[k].creator != a.id && s.invocations[a.id].req.key == k
    ensures StageInv(Step(s, a), k, NextStage(s, a, k, stage))
  {
    StepFrame(s, a);
    assert OwnerInv(s, a.id) && AdmissionInv(s, s.invocations[a.id]);
    BystanderChangesNothing(s, a);
    OnlyOwnersAct(s, a);
  }

  lemma OtherKeyKeepsStage(s: State, a: Action, k: Key, stage: Stage)
    requires Inv(s) && StageInv(s, k, stage) && Enabled(s, a) && !a.Invoke? && s.invocations[a.id].req.key != k
    ensures StageInv(Step(s, a), k, NextStage(s, a, k, stage))
  {
    StepFrame(s, a);
    assert RowInv(s, k);
  }

  lemma FirstStepsKeepStage(s: State, a: Action, k: Key, stage: Stage)
    requires Inv(s) && StageInv(s, k, stage) && Enabled(s, a) && !a.Invoke?
    requires k !in s.rows && s.invocations[a.id].req.key == k
    ensures StageInv(Step(s, a), k, NextStage(s, a, k, stage))
  {
    StepFrame(s, a);
    assert RowInv(s, k) && OwnerInv(s, a.id);
    OnlyOwnersAct(s, a);
  }

  lemma StepKeepsStage(s: State, a: Action, k: Key, stage: Stage)
    requires Inv(s) && StageInv(s, k, stage) && Enabled(s, a)
    ensures StageInv(Step(s, a), k, NextStage(s, a, k, stage))
  {
    if !a.Invoke? {
      if s.invocations[a.id].req.key != k {
        OtherKeyKeepsStage(s, a, k, stage);
      } else if k !in s.rows {
        FirstStepsKeepStage(s, a, k, stage);
      } else if s.rows[k].creator == a.id {
        CreatorKeepsStage(s, a, k, stage);
      } else {
        BystanderKeepsStage(s, a, k, stage);
      }
    } else {
      assert RowInv(s, k);
    }
  }

  lemma {:induction false} RunKeepsStage(s: State, actions: seq<Action>, s': State, k: Key, stage: Stage)
    requires Inv(s) && StageInv(s, k, stage) && Leads(s, actions, s')
    ensures Inv(s') && StageInv(s', k, StageAfter(s, actions, k, stage))
    decreases |actions|
  {
    if actions != [] {
      StepKeepsInv(s, actions[0]);
      StepKeepsStage(s, actions[0], k, stage);
      RunKeepsStage(Step(s, actions[0]), actions[1..], s', k, NextStage(s, actions[0], k, stage));
    }
  }

  // ---- What the log can hold

  /** Over all runs, the events of one call are one of six lists, and which of the longer ones it is depends on the
      stage the run has reached. */
  lemma EventsOfACall(runs: set<string>, actions: seq<Action>, s: State, k: Key)
    requires Leads(Init(runs), actions, s)
    ensures match StageAfter(Init(runs), actions, k, Ordinary)
            case Ordinary => Log(s, k) in {[], [Started], [Started, CallCompleted], [Started, CallFailed]}
            case Told(isError) => Log(s, k) == [Started, EventOf(isError)]
            case ToldAgain(isError) => Log(s, k) == [Started, EventOf(isError), CallFailed]
  {
    InitInv(runs);
    RunKeepsStage(Init(runs), actions, s, k, Ordinary);
    assert RowInv(s, k);
  }

  /** A call's log holds both outcomes iff its success was logged by a write that reported an error and, later, the
      catch block logged the failure. */
  lemma BothOutcomesIff(runs: set<string>, actions: seq<Action>, s: State, k: Key)
    requires Leads(Init(runs), actions, s)
    ensures CallCompleted in Log(s, k) && CallFailed in Log(s, k)
            <==> StageAfter(Init(runs), actions, k, Ordinary) == ToldAgain(false)
  {
    EventsOfACall(runs, actions, s, k);
  }

  /** A call's failure is logged twice iff an error the tool reported was logged in the try block and, later, the catch
      block logged the failure as well. */
  lemma FailureLoggedTwiceIff(runs: set<string>, actions: seq<Action>, s: State, k: Key)
    requires Leads(Init(runs), actions, s)
    ensures Log(s, k) == [Started, CallFailed, CallFailed]
            <==> StageAfter(Init(runs), actions, k, Ordinary) == ToldAgain(true)
  {
    EventsOfACall(runs, actions, s, k);
  }

  // ---- When a logged completion is final

  ghost predicate ClosedInEveryContinuation(s: State, k: Key) {
    forall actions, s' :: Leads(s, actions, s') ==>
      k in s'.rows && s'.rows[k].status.Completed? && Log(s', k) == [Started, CallCompleted]
  }

  /** In any run, a completed row with a closed log stays so for ever iff the invocation that logged it is over. */
  lemma LoggedCompletionFinalIff(runs: set<string>, actions: seq<Action>, s: State, k: Key)
    requires Leads(Init(runs), actions, s) && CallCompleted in Log(s, k)
    ensures k in s.rows && s.rows[k].creator in s.invocations
    ensures ClosedInEveryContinuation(s, k)
            <==> s.rows[k].status.Completed? && Log(s, k) == [Started, CallCompleted]
                 && Over(s.invocations[s.rows[k].creator].pc)
  {
    InitInv(runs);
    RunKeepsInv(Init(runs), actions, s);
    assert RowInv(s, k);
    if ClosedInEveryContinuation(s, k) {
      assert Leads(s, [], s);
      CompletedFinalIff(s, k);
    } else if Over(s.invocations[s.rows[k].creator].pc) {
      forall later, s' | Leads(s, later, s')
        ensures k in s'.rows && s'.rows[k] == s.rows[k] && Log(s', k) == Log(s, k)
      {
        FrozenOnceOver(s, later, s', k);
      }
    }
  }

  /** The append of `tool.call.completed` for this key took effect but the caller is told it failed. */
  predicate LosesSuccess(s: State, a: Action, k: Key) {
    TellsAndThrows(s, a, k) && !s.invocations[a.id].pc.isError
  }

  ghost predicate LeadsWithoutLoss(s: State, actions: seq<Action>, s': State, k: Key)
    decreases |actions|
  {
    if actions == [] then s' == s
    else
      && Enabled(s, actions[0]) && !LosesSuccess(s, actions[0], k)
      && LeadsWithoutLoss(Step(s, actions[0]), actions[1..], s', k)
  }

  predicate SuccessNotLost(stage: Stage) {
    stage.Ordinary? || stage.isError
  }

  lemma {:induction false} WithoutLoss(s: State, actions: seq<Action>, s': State, k: Key, stage: Stage)
    requires LeadsWithoutLoss(s, actions, s', k) && SuccessNotLost(stage)
    ensures Leads(s, actions, s') && SuccessNotLost(StageAfter(s, actions, k, stage))
    decreases |actions|
  {
    if actions != [] {
      WithoutLoss(Step(s, actions[0]), actions[1..], s', k, NextStage(s, actions[0], k, stage));
    }
  }

  /** If no append of the completion was lost, a logged completion means that the row reads `completed` and the log is
      closed, whatever happens later. */
  lemma CompletedForever(runs: set<string>, actions: seq<Action>, s: State, k: Key)
    requires LeadsWithoutLoss(Init(runs), actions, s, k) && CallCompleted in Log(s, k)
    ensures ClosedInEveryContinuation(s, k)
  {
    WithoutLoss(Init(runs), actions, s, k, Ordinary);
    InitInv(runs);
    RunKeepsStage(Init(runs), actions, s, k, Ordinary);
    assert RowInv(s, k);
    LoggedCompletionFinalIff(runs, actions, s, k);
  }
}
