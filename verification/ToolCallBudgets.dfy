/** The two budgets of `reserveCall` over whole runs, failed calls included. */
module ToolCallBudgets {
  import opened Prelude
  import opened Limits
  import opened ToolCalls
  import opened ToolCallTheorems

  /** The request under which the row of `k` was reserved. */
  function ReservedBy(s: State, k: Key): Request
    requires k in s.rows && s.rows[k].creator in s.invocations
  {
    s.invocations[s.rows[k].creator].req
  }

  /** Some reservation among the counted rows was made with a limit that covers all of them. */
  ghost predicate WithinToolLimit(s: State, run: string, tool: string) {
    ToolRows(s.rows, run, tool) != {} ==>
      exists k :: k in ToolRows(s.rows, run, tool) && s.rows[k].creator in s.invocations
                  && |ToolRows(s.rows, run, tool)| <= ReservedBy(s, k).maxCalls
  }

  ghost predicate WithinRunLimit(s: State, run: string) {
    RunRows(s.rows, run) != {} ==>
      exists k :: k in RunRows(s.rows, run) && s.rows[k].creator in s.invocations
                  && |RunRows(s.rows, run)| <= MaxTotalToolCallsPerRun(ReservedBy(s, k).env)
  }

  lemma RowAdded(rows: map<Key, Row>, k: Key, row: Row, run: string, tool: string)
    requires k !in rows
    ensures RunRows(rows[k := row], run) == RunRows(rows, run) + (if k.run == run then {k} else {})
    ensures ToolRows(rows[k := row], run, tool)
            == ToolRows(rows, run, tool) + (if k.run == run && row.tool == tool then {k} else {})
    ensures k !in RunRows(rows, run) && k !in ToolRows(rows, run, tool)
  {
  }

  /** A commit adds one row to the run and to the tool it was counted for, and to no other. */
  lemma CommitAddsOne(s: State, a: Action, run: string, tool: string)
    requires Inv(s) && Enabled(s, a) && Inserts(a)
    ensures var rows, i := Step(s, a).rows, s.invocations[a.id];
            && rows == s.rows[i.req.key := Row(i.req.tool, i.req.digest, Running, a.id)]
            && |RunRows(rows, run)| == |RunRows(s.rows, run)| + (if i.req.key.run == run then 1 else 0)
            && |ToolRows(rows, run, tool)|
               == |ToolRows(s.rows, run, tool)| + (if i.req.key.run == run && i.req.tool == tool then 1 else 0)
  {
    var i := s.invocations[a.id];
    assert AdmissionInv(s, i);
    RowAdded(s.rows, i.req.key, Row(i.req.tool, i.req.digest, Running, a.id), run, tool);
  }

  /** Rows and the requests they were reserved under never change their identity. */
  lemma ReservationStays(s: State, a: Action, k: Key)
    requires Inv(s) && Enabled(s, a) && k in s.rows
    ensures var s' := Step(s, a);
            && s.rows[k].creator in s.invocations && k in s'.rows && s'.rows[k].creator == s.rows[k].creator
            && s'.rows[k].tool == s.rows[k].tool
            && s'.rows[k].creator in s'.invocations && ReservedBy(s', k) == ReservedBy(s, k)
  {
    assert RowInv(s, k);
    if !a.Invoke? {
      StepFrame(s, a);
      assert AdmissionInv(s, s.invocations[a.id]);
    }
  }

  lemma StepKeepsToolLimit(s: State, a: Action, run: string, tool: string)
    requires Inv(s) && Enabled(s, a) && WithinToolLimit(s, run, tool)
    ensures WithinToolLimit(Step(s, a), run, tool)
  {
    var s' := Step(s, a);
    if Inserts(a) && s.invocations[a.id].req.key.run == run && s.invocations[a.id].req.tool == tool {
      NewestWithinLimits(s, a);
    } else if ToolRows(s'.rows, run, tool) != {} {
      if Inserts(a) {
        CommitAddsOne(s, a, run, tool);
      } else {
        SameRowsSameBudget(s, a, run, tool);
      }
      assert ToolRows(s.rows, run, tool) != {};
      var k :| k in ToolRows(s.rows, run, tool) && s.rows[k].creator in s.invocations
               && |ToolRows(s.rows, run, tool)| <= ReservedBy(s, k).maxCalls;
      ReservationStays(s, a, k);
    }
  }

  lemma StepKeepsRunLimit(s: State, a: Action, run: string)
    requires Inv(s) && Enabled(s, a) && WithinRunLimit(s, run)
    ensures WithinRunLimit(Step(s, a), run)
  {
    var s' := Step(s, a);
    if Inserts(a) && s.invocations[a.id].req.key.run == run {
      NewestWithinLimits(s, a);
    } else if RunRows(s'.rows, run) != {} {
      if Inserts(a) {
        CommitAddsOne(s, a, run, "");
      } else {
        SameRowsSameBudget(s, a, run, "");
      }
      assert RunRows(s.rows, run) != {};
      var k :| k in RunRows(s.rows, run) && s.rows[k].creator in s.invocations
               && |RunRows(s.rows, run)| <= MaxTotalToolCallsPerRun(ReservedBy(s, k).env);
      ReservationStays(s, a, k);
    }
  }

  lemma NewestWithinLimits(s: State, a: Action)
    requires Inv(s) && Enabled(s, a) && Inserts(a)
    ensures var s', req := Step(s, a), s.invocations[a.id].req;
            && req.key in ToolRows(s'.rows, req.key.run, req.tool) && req.key in RunRows(s'.rows, req.key.run)
            && s'.rows[req.key].creator in s'.invocations && ReservedBy(s', req.key) == req
            && |ToolRows(s'.rows, req.key.run, req.tool)| <= req.maxCalls
            && |RunRows(s'.rows, req.key.run)| <= MaxTotalToolCallsPerRun(req.env)
  {
    var req := s.invocations[a.id].req;
    CommitAddsOne(s, a, req.key.run, req.tool);
    assert AdmissionInv(s, s.invocations[a.id]);
  }

  lemma {:induction false} RunKeepsLimits(s: State, actions: seq<Action>, s': State, run: string, tool: string)
    requires Inv(s) && WithinToolLimit(s, run, tool) && WithinRunLimit(s, run) && Leads(s, actions, s')
    ensures Inv(s') && WithinToolLimit(s', run, tool) && WithinRunLimit(s', run)
    decreases |actions|
  {
    if actions != [] {
      StepKeepsInv(s, actions[0]);
      StepKeepsToolLimit(s, actions[0], run, tool);
      StepKeepsRunLimit(s, actions[0], run);
      RunKeepsLimits(Step(s, actions[0]), actions[1..], s', run, tool);
    }
  }

  /** No run ever holds more than 32 calls, whatever the environment says; nor more than `total` if every invocation
      read a limit of at most `total`; nor more than `perTool` calls of a tool if every invocation of the tool did. */
  lemma BudgetsHold(runs: set<string>, actions: seq<Action>, s: State, run: string, tool: string, total: nat,
                    perTool: nat)
    requires Leads(Init(runs), actions, s)
    ensures |set k | k in s.rows && k.run == run| <= 32
    ensures (forall id :: id in s.invocations ==> MaxTotalToolCallsPerRun(s.invocations[id].req.env) <= total) ==>
              |set k | k in s.rows && k.run == run| <= total
    ensures (forall id :: id in s.invocations && s.invocations[id].req.tool == tool ==>
               s.invocations[id].req.maxCalls <= perTool) ==>
              |set k | k in s.rows && k.run == run && s.rows[k].tool == tool| <= perTool
  {
    assert RunRows(s.rows, run) == set k | k in s.rows && k.run == run;
    assert ToolRows(s.rows, run, tool) == set k | k in s.rows && k.run == run && s.rows[k].tool == tool;
    InitInv(runs);
    RunKeepsLimits(Init(runs), actions, s, run, tool);
    if ToolRows(s.rows, run, tool) != {} {
      var k :| k in ToolRows(s.rows, run, tool) && s.rows[k].creator in s.invocations
               && |ToolRows(s.rows, run, tool)| <= ReservedBy(s, k).maxCalls;
      assert RowInv(s, k);
    }
  }

  /** Right after a reservation the tool's count is within the limit that reservation was made with. */
  lemma ReservationWithinItsLimit(s: State, id: nat)
    requires Inv(s) && Enabled(s, Commit(id, Acknowledged))
    ensures var s', req := Step(s, Commit(id, Acknowledged)), s.invocations[id].req;
            && 1 <= |ToolRows(s'.rows, req.key.run, req.tool)| <= req.maxCalls
            && |RunRows(s'.rows, req.key.run)| <= MaxTotalToolCallsPerRun(req.env)
  {
    NewestWithinLimits(s, Commit(id, Acknowledged));
  }
}
