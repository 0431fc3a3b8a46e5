/** The orchestration graph: validate, plan, execute, evaluate, and the bounded retry loop. */
module GraphRun {
  import opened Basics
  import opened Plan
  import opened Executor
  import opened ExecuteNode

  datatype Phase = Validate | Planning | Execute | Evaluate | Done | Failed

  datatype Verdict = Verdict(passed: bool)

  datatype Entry = Entry(iteration: nat, plan: Option<seq<PlanStep>>, execution: Option<seq<Record>>, verdict: Verdict)

  datatype GraphState = GraphState(
    task: string, tools: seq<string>, phase: Phase, iteration: nat,
    plan: Option<seq<PlanStep>>, execution: Option<seq<Record>>, history: seq<Entry>, completed: set<Id>)

  function Initial(task: string, tools: seq<string>): GraphState {
    GraphState(task, tools, Validate, 0, None, None, [], {})
  }

  // ---- Nodes ------------------------------------------------------------------------------------------

  function ValidateNode(s: GraphState): GraphState {
    if s.task == "" || s.tools == [] then s.(phase := Phase.Failed) else s.(phase := Planning)
  }

  /** The planner's reply is a plan, or nothing when both planning paths failed. */
  function PlanNode(s: GraphState, reply: Option<seq<PlanStep>>): GraphState {
    if reply.Some? then s.(phase := Execute, plan := reply) else s.(phase := Phase.Failed)
  }

  ghost predicate Executable(reply: Option<seq<PlanStep>>) {
    reply.Some? && reply.value != [] && RefsKnown(reply.value)
  }

  /** The step ids of a pass that called their tool and got a result. */
  ghost predicate Called(results: Option<seq<Record>>, id: Id) {
    results.Some? && exists i :: 0 <= i < |results.value| && results.value[i].0 == id && results.value[i].1.Succeeded?
  }

  predicate DistinctRecords(results: seq<Record>) {
    forall a, b :: 0 <= a < b < |results| ==> results[a].0 != results[b].0
  }

  /** A plan that cannot be executed leaves the earlier execution result in the state. */
  method RunExecute(s: GraphState, tool: Tool, parallel: bool, turns: nat -> seq<Event>) returns (s': GraphState)
    requires s.plan.Some? ==> DistinctIds(s.plan.value)
    ensures s.phase.Failed? || !Executable(s.plan) ==> s' == s.(phase := Phase.Failed)
    ensures !s.phase.Failed? && Executable(s.plan) ==>
              && s'.execution.Some?
              && s' == s.(phase := Evaluate, execution := s'.execution, completed := s'.completed)
              && (forall id :: id in s'.completed <==> id in s.completed || Called(s'.execution, id))
              && (forall id :: Called(s'.execution, id) ==> id !in s.completed)
              && DistinctRecords(s'.execution.value)
              && PassIs(s.plan.value, s.completed, tool, s'.execution.value)
              && (forall id :: id in Ids(s.plan.value)
                    <==> exists i :: 0 <= i < |s'.execution.value| && s'.execution.value[i].0 == id)
  {
    if s.phase.Failed? {
      return s;
    }
    if s.plan.None? || s.plan.value == [] {
      return s.(phase := Phase.Failed);
    }
    var errors := ValidateStepReferences(s.plan.value);
    if errors != [] {
      return s.(phase := Phase.Failed);
    }
    var p, results := ExecutePass(s.plan.value, s.completed, tool, parallel, turns);
    s' := s.(phase := Evaluate, execution := Some(results), completed := p.completed);
    RecordsShow(s.completed, p, results);
  }

  lemma RecordsShow(completed: set<Id>, p: Pass, results: seq<Record>)
    requires RecordsOf(results, p.outcomes) && Completes(completed, p) && SkipsCompleted(completed, p)
    ensures forall id :: id in p.completed <==> id in completed || Called(Some(results), id)
    ensures forall id :: Called(Some(results), id) ==> id !in completed
    ensures forall id :: id in p.outcomes <==> exists i :: 0 <= i < |results| && results[i].0 == id
  {
  }

  /** Evaluation fails with an exception when it passes a run in which nothing was ever executed. */
  predicate Breaks(s: GraphState, v: Verdict) {
    v.passed && s.execution.None?
  }

  function EvaluateNode(s: GraphState, v: Verdict, maxIterations: int): GraphState
    requires !Breaks(s, v)
  {
    var iteration := s.iteration + 1;
    var s' := s.(iteration := iteration, history := s.history + [Entry(iteration, s.plan, s.execution, v)]);
    if v.passed then s'.(phase := Done)
    else if iteration >= maxIterations then s'.(phase := Phase.Failed)
    else s'.(phase := Planning)
  }

  // ---- The run --------------------------------------------------------------------------------------------

  datatype End = Returned(state: GraphState) | Exception(state: GraphState)

  /** The execution result in force after some rounds: the last one that was produced. */
  function Latest(passes: seq<Option<seq<Record>>>): Option<seq<Record>> {
    if passes == [] then None
    else if passes[|passes| - 1].Some? then passes[|passes| - 1]
    else Latest(passes[..|passes| - 1])
  }

  /** Round k's entry records round k's plan and verdict, and the latest execution result. */
  ghost predicate HistoryIs(s: GraphState, planner: nat -> Option<seq<PlanStep>>, critic: nat -> Verdict,
                            passes: seq<Option<seq<Record>>>) {
    && |s.history| == s.iteration <= |passes|
    && forall k :: 0 <= k < s.iteration ==> s.history[k] == Entry(k + 1, planner(k), Latest(passes[..k + 1]), critic(k))
  }

  /** Over all passes, each step id has at most one successful call. */
  ghost predicate CalledOnce(passes: seq<Option<seq<Record>>>) {
    && (forall i, j, id :: 0 <= i < j < |passes| && Called(passes[i], id) ==> !Called(passes[j], id))
    && (forall i :: 0 <= i < |passes| && passes[i].Some? ==> DistinctRecords(passes[i].value))
  }

  /** `completed_step_ids` is exactly what the passes so far have called successfully. */
  ghost predicate CompletedIs(completed: set<Id>, passes: seq<Option<seq<Record>>>) {
    forall id :: id in completed <==> exists i :: 0 <= i < |passes| && Called(passes[i], id)
  }

  lemma AnotherPass(completed: set<Id>, completed': set<Id>, passes: seq<Option<seq<Record>>>,
                    pass: Option<seq<Record>>)
    requires CalledOnce(passes) && CompletedIs(completed, passes)
    requires forall id :: id in completed' <==> id in completed || Called(pass, id)
    requires forall id :: Called(pass, id) ==> id !in completed
    requires pass.Some? ==> DistinctRecords(pass.value)
    ensures CalledOnce(passes + [pass]) && CompletedIs(completed', passes + [pass])
  {
    hide Called;
    var more := passes + [pass];
    forall id ensures id in completed' <==> exists i :: 0 <= i < |more| && Called(more[i], id) {
      if id in completed {
        var i :| 0 <= i < |passes| && Called(passes[i], id);
        assert Called(more[i], id);
      }
      if Called(pass, id) { assert Called(more[|passes|], id); }
    }
    forall i, j, id | 0 <= i < j < |more| && Called(more[i], id) ensures !Called(more[j], id) {
      assert more[i] == passes[i];
    }
  }

  lemma LongerHistory(s: GraphState, s': GraphState, planner: nat -> Option<seq<PlanStep>>, critic: nat -> Verdict,
                      passes: seq<Option<seq<Record>>>, e: Entry)
    requires |passes| == s.iteration + 1 && HistoryIs(s, planner, critic, passes[..s.iteration])
    requires s'.iteration == s.iteration + 1 && s'.history == s.history + [e]
    requires e == Entry(s'.iteration, planner(s.iteration), Latest(passes), critic(s.iteration))
    ensures HistoryIs(s', planner, critic, passes)
  {
    forall k | 0 <= k < s'.iteration
      ensures s'.history[k] == Entry(k + 1, planner(k), Latest(passes[..k + 1]), critic(k))
    {
      if k < s.iteration { assert passes[..s.iteration][..k + 1] == passes[..k + 1]; }
      else { assert passes[..k + 1] == passes; }
    }
  }

  lemma ExceptionHistory(s0: GraphState, s: GraphState, planner: nat -> Option<seq<PlanStep>>, critic: nat -> Verdict,
                         passes: seq<Option<seq<Record>>>)
    requires |passes| == s0.iteration + 1 && HistoryIs(s0, planner, critic, passes[..s0.iteration])
    requires s.iteration == s0.iteration && s.history == s0.history
    ensures HistoryIs(s, planner, critic, passes)
  {
    forall k | 0 <= k < s.iteration
      ensures s.history[k] == Entry(k + 1, planner(k), Latest(passes[..k + 1]), critic(k))
    {
      assert passes[..s0.iteration][..k + 1] == passes[..k + 1];
    }
  }

  lemma {:induction false} LatestNone(passes: seq<Option<seq<Record>>>)
    ensures Latest(passes).None? <==> forall i :: 0 <= i < |passes| ==> passes[i].None?
  {
    if passes != [] {
      LatestNone(passes[..|passes| - 1]);
      assert Latest(passes).None? ==> passes[|passes| - 1].None?;
      assert forall i :: 0 <= i < |passes| - 1 ==> passes[i] == passes[..|passes| - 1][i];
    }
  }

  /** What a round's pass records, given the passes before it. */
  ghost predicate RoundIs(reply: Option<seq<PlanStep>>, tool: Tool, earlier: seq<Option<seq<Record>>>,
                          pass: Option<seq<Record>>) {
    && (pass.Some? <==> Executable(reply))
    && (pass.Some? ==>
          exists completed :: CompletedIs(completed, earlier) && PassIs(reply.value, completed, tool, pass.value))
  }

  ghost predicate RoundsAre(planner: nat -> Option<seq<PlanStep>>, tool: Tool, passes: seq<Option<seq<Record>>>) {
    forall k :: 0 <= k < |passes| ==> RoundIs(planner(k), tool, passes[..k], passes[k])
  }

  lemma OneMoreRound(planner: nat -> Option<seq<PlanStep>>, tool: Tool, passes: seq<Option<seq<Record>>>,
                     pass: Option<seq<Record>>)
    requires RoundsAre(planner, tool, passes) && RoundIs(planner(|passes|), tool, passes, pass)
    ensures RoundsAre(planner, tool, passes + [pass])
  {
    hide RoundIs;
    var more := passes + [pass];
    forall k | 0 <= k < |more| ensures RoundIs(planner(k), tool, more[..k], more[k]) {
      if k < |passes| { assert more[..k] == passes[..k]; } else { assert more[..k] == passes; }
    }
  }

  ghost predicate RoundsSoFar(s: GraphState, planner: nat -> Option<seq<PlanStep>>, critic: nat -> Verdict,
                              passes: seq<Option<seq<Record>>>) {
    && |passes| == s.iteration && HistoryIs(s, planner, critic, passes) && s.execution == Latest(passes)
    && CalledOnce(passes) && CompletedIs(s.completed, passes)
    && (forall j :: 0 <= j < |passes| ==> planner(j).Some? && !critic(j).passed)
    && (forall j :: 0 <= j < |passes| ==> (passes[j].Some? <==> Executable(planner(j))))
  }

  /** One round up to and including execute. */
  method PlanAndExecute(s0: GraphState, planner: nat -> Option<seq<PlanStep>>, ghost critic: nat -> Verdict,
                        tool: Tool, parallel: bool, turns: nat -> seq<Event>, ghost passes: seq<Option<seq<Record>>>)
    returns (s: GraphState, ghost pass: Option<seq<Record>>)
    requires RoundsSoFar(s0, planner, critic, passes) && planner(s0.iteration).Some?
    requires DistinctIds(planner(s0.iteration).value)
    ensures s == s0.(phase := s.phase, plan := planner(s0.iteration), execution := s.execution,
            completed := s.completed)
    ensures pass.Some? <==> Executable(planner(s0.iteration))
    ensures s.execution == Latest(passes + [pass])
    ensures CalledOnce(passes + [pass]) && CompletedIs(s.completed, passes + [pass])
    ensures RoundIs(planner(s0.iteration), tool, passes, pass)
  {
    hide Called, CalledOnce, CompletedIs, HistoryIs, RefsKnown, DistinctIds, PassIs;
    var s1 := PlanNode(s0, planner(s0.iteration));
    s := RunExecute(s1, tool, parallel, turns);
    pass := if Executable(s1.plan) then s.execution else None;
    assert (passes + [pass])[..|passes|] == passes;
    NoCalls();
    AnotherPass(s0.completed, s.completed, passes, pass);
  }

  lemma NoCalls()
    ensures forall id :: !Called(None, id)
  {
  }

  /** One full round, for a planner that replies. */
  method Round(s0: GraphState, maxIterations: int, planner: nat -> Option<seq<PlanStep>>, critic: nat -> Verdict,
               tool: Tool, parallel: bool, turns: nat -> seq<Event>, ghost passes: seq<Option<seq<Record>>>)
    returns (end: End, ghost longer: seq<Option<seq<Record>>>)
    requires RoundsSoFar(s0, planner, critic, passes) && planner(s0.iteration).Some?
    requires DistinctIds(planner(s0.iteration).value) && RoundsAre(planner, tool, passes)
    ensures |longer| == s0.iteration + 1 && CalledOnce(longer) && HistoryIs(end.state, planner, critic, longer)
    ensures RoundsAre(planner, tool, longer) && CompletedIs(end.state.completed, longer)
    ensures end.Exception?
            <==> critic(s0.iteration).passed && forall j :: 0 <= j <= s0.iteration ==> !Executable(planner(j))
    ensures end.Exception? ==> |end.state.history| == s0.iteration
    ensures end.Returned? ==>
              && end.state.iteration == |end.state.history| == s0.iteration + 1
              && (end.state.phase.Done? || end.state.phase.Failed? || end.state.phase.Planning?)
              && (end.state.phase.Done? <==> critic(s0.iteration).passed)
              && (end.state.phase.Failed? ==> end.state.iteration >= maxIterations)
              && (end.state.phase.Planning? ==>
                    end.state.iteration < maxIterations && RoundsSoFar(end.state, planner, critic, longer))
  {
    hide Called, CalledOnce, CompletedIs, Executable, DistinctIds, Latest, HistoryIs, RoundsAre, RoundIs;
    ghost var pass;
    var s;
    RoundsGive(s0, planner, critic, passes);
    s, pass := PlanAndExecute(s0, planner, critic, tool, parallel, turns, passes);
    PhaseIsNotHistory(s0, s, planner, critic, passes);
    longer := passes + [pass];
    OneMoreRound(planner, tool, passes, pass);
    assert longer[..s0.iteration] == passes;
    LatestNone(longer);
    assert forall j :: 0 <= j <= s0.iteration ==> (longer[j].Some? <==> Executable(planner(j)));
    if Breaks(s, critic(s0.iteration)) {
      ExceptionHistory(s0, s, planner, critic, longer);
      return Exception(s), longer;
    }
    var s' := EvaluateNode(s, critic(s0.iteration), maxIterations);
    LongerHistory(s0, s', planner, critic, longer, s'.history[s.iteration]);
    return End.Returned(s'), longer;
  }

  lemma FirstRound(s: GraphState, planner: nat -> Option<seq<PlanStep>>, critic: nat -> Verdict)
    requires s.iteration == 0 && s.history == [] && s.execution.None? && s.completed == {}
    ensures RoundsSoFar(s, planner, critic, []) && HistoryIs(s, planner, critic, []) && CalledOnce([])
    ensures CompletedIs(s.completed, [])
  {
  }

  lemma RoundsGive(s: GraphState, planner: nat -> Option<seq<PlanStep>>, critic: nat -> Verdict,
                   passes: seq<Option<seq<Record>>>)
    requires RoundsSoFar(s, planner, critic, passes)
    ensures |passes| == s.iteration == |s.history| && HistoryIs(s, planner, critic, passes) && CalledOnce(passes)
    ensures CompletedIs(s.completed, passes)
    ensures forall j :: 0 <= j < s.iteration ==> planner(j).Some? && !critic(j).passed
  {
  }

  lemma PhaseIsNotHistory(s: GraphState, s': GraphState, planner: nat -> Option<seq<PlanStep>>,
                          critic: nat -> Verdict, passes: seq<Option<seq<Record>>>)
    requires HistoryIs(s, planner, critic, passes) && s'.history == s.history && s'.iteration == s.iteration
    ensures HistoryIs(s', planner, critic, passes)
  {
  }

  /** The whole graph run, for every planner, critic, tool, execution mode and interleaving. */
  method Run(task: string, tools: seq<string>, maxIterations: int, planner: nat -> Option<seq<PlanStep>>,
             critic: nat -> Verdict, tool: Tool, parallel: bool, turns: nat -> nat -> seq<Event>)
    returns (end: End, evaluations: nat, ghost passes: seq<Option<seq<Record>>>)
    requires forall k :: planner(k).Some? ==> DistinctIds(planner(k).value)
    ensures evaluations <= Max(1, maxIterations) && |passes| == evaluations
    ensures HistoryIs(end.state, planner, critic, passes)
    ensures end.Returned? ==> |end.state.history| == evaluations && (end.state.phase.Done? || end.state.phase.Failed?)
    ensures end.Exception? ==> |end.state.history| == evaluations - 1
    ensures forall j :: 0 <= j < evaluations ==> planner(j).Some? && (j < evaluations - 1 ==> !critic(j).passed)
    ensures task == "" || tools == [] ==> evaluations == 0
    ensures end.Returned? && end.state.phase.Done? <==>
              && evaluations > 0 && critic(evaluations - 1).passed
              && exists j :: 0 <= j < evaluations && Executable(planner(j))
    ensures end.Exception? <==>
              && evaluations > 0 && critic(evaluations - 1).passed
              && forall j :: 0 <= j < evaluations ==> !Executable(planner(j))
    ensures end.Returned? && end.state.phase.Failed? ==>
              task == "" || tools == [] || evaluations == Max(1, maxIterations) || planner(evaluations).None?
    ensures CalledOnce(passes) && CompletedIs(end.state.completed, passes)
    ensures RoundsAre(planner, tool, passes)
  {
    hide RoundsSoFar, HistoryIs, CalledOnce, CompletedIs, Executable, DistinctIds, RoundIs;
    var s := ValidateNode(Initial(task, tools));
    evaluations, passes := 0, [];
    FirstRound(s, planner, critic);
    if !s.phase.Planning? {
      return End.Returned(s), 0, [];
    }
    while true
      invariant evaluations == s.iteration && s.phase.Planning?
      invariant RoundsSoFar(s, planner, critic, passes) && RoundsAre(planner, tool, passes)
      invariant evaluations == 0 || evaluations < maxIterations
      decreases maxIterations - evaluations
    {
      RoundsGive(s, planner, critic, passes);
      if planner(evaluations).None? {
        PhaseIsNotHistory(s, PlanNode(s, None), planner, critic, passes);
        return End.Returned(PlanNode(s, None)), evaluations, passes;
      }
      end, passes := Round(s, maxIterations, planner, critic, tool, parallel, turns(evaluations), passes);
      evaluations := evaluations + 1;
      if end.Exception? || !end.state.phase.Planning? {
        return;
      }
      s := end.state;
    }
  }

  /** Every run whose planner replies first with a plan that cannot be executed, and whose critic passes the first
      round, ends in the exception after that round: execute refuses the plan, and the edge to evaluate is taken all
      the same. */
  method StrayReferenceBreaks(task: string, tools: seq<string>, maxIterations: int,
                              planner: nat -> Option<seq<PlanStep>>, critic: nat -> Verdict, tool: Tool,
                              parallel: bool, turns: nat -> nat -> seq<Event>) returns (end: End)
    requires task != "" && tools != []
    requires forall k :: planner(k).Some? ==> DistinctIds(planner(k).value)
    requires planner(0).Some? && !Executable(planner(0)) && critic(0).passed
    ensures end.Exception? && end.state.history == []
  {
    hide DistinctIds, Executable;
    var evaluations;
    ghost var passes;
    end, evaluations, passes := Run(task, tools, maxIterations, planner, critic, tool, parallel, turns);
  }

  /** Such a plan: its only step refers to a step that does not exist. */
  lemma StrayIsNotExecutable()
    ensures var plan := [PlanStep("step1", "echo", [("message", Text([Ref("step2")]))])];
            DistinctIds(plan) && !Executable(Some(plan))
  {
    var step := PlanStep("step1", "echo", [("message", Text([Ref("step2")]))]);
    assert step.args[0].1.pieces[0] == Ref("step2");
    assert step in [step] && Mentions(step, "step2");
    assert "step2"[4] != "step1"[4];
    assert Ids([step]) == {"step1"};
  }
}
