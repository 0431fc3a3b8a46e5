/** Which `{{steps.<id>.output}}` references of a plan are replaced by an output, and which stay as they are. */
module References {
  import opened Basics
  import opened Plan
  import opened Executor
  import opened ExecuteNode
  import opened GraphRun
  import Sorter

  /** The reference has an output to be replaced by. */
  predicate HasOutput(outputs: map<Id, Value>, r: Id) {
    Lookup(outputs, r).Shown?
  }

  predicate Shows(tool: Tool, s: PlanStep, outputs: map<Id, Value>) {
    var result := tool(s.tool, Resolve(s.args, outputs));
    result.Returned? && result.value.Shown?
  }

  /** In a pass without a cycle a reference is replaced if and only if the step it mentions was not completed in an
      earlier round and its tool returned something to show. */
  lemma FilledExactly(steps: seq<PlanStep>, completed: set<Id>, tool: Tool, m: map<Id, Outcome>, r: Id)
    requires DistinctIds(steps) && Solution(steps, completed, tool, m) && r in Ids(steps)
    ensures HasOutput(OutputsOf(m), r) <==> r !in completed && Shows(tool, StepOf(steps, r), OutputsOf(m))
  {
    var s := StepOf(steps, r);
    assert m[s.id] == StepOutcome(s, OutputsOf(m), completed, tool);
  }

  ghost predicate AlwaysShows(tool: Tool) {
    forall name, args :: tool(name, args).Returned? && tool(name, args).value.Shown?
  }

  /** With a tool that always returns something to show, every reference of every step that is called is replaced if
      and only if no such reference is to a step completed in an earlier round. */
  lemma AllFilledExactly(steps: seq<PlanStep>, completed: set<Id>, tool: Tool, m: map<Id, Outcome>)
    requires DistinctIds(steps) && RefsKnown(steps) && Solution(steps, completed, tool, m) && AlwaysShows(tool)
    ensures (forall s, r :: s in steps && s.id !in completed && r in Refs(s) ==> HasOutput(OutputsOf(m), r))
            <==> (forall s, r :: s in steps && s.id !in completed && r in Refs(s) ==> r !in completed)
  {
    hide HasOutput, Solution, DistinctIds;
    forall s, r | s in steps && s.id !in completed && r in Refs(s)
      ensures HasOutput(OutputsOf(m), r) <==> r !in completed
    {
      assert Mentions(s, r);
      FilledExactly(steps, completed, tool, m, r);
    }
  }

  /** In plan order, as a pass with a cycle runs, a reference is replaced if and only if moreover the step it
      mentions comes earlier in the plan. */
  lemma FilledInPlanOrderExactly(steps: seq<PlanStep>, completed: set<Id>, tool: Tool, i: nat, r: Id)
    requires DistinctIds(steps) && i <= |steps|
    ensures HasOutput(InOrder(steps[..i], completed, tool).outputs, r) <==>
              && r !in completed
              && exists j :: 0 <= j < i && steps[j].id == r
                             && Shows(tool, steps[j], InOrder(steps[..j], completed, tool).outputs)
  {
    var init := steps[..i];
    InOrderBooks(init, init, completed, tool);
    if r in Ids(init) {
      var s :| s in init && s.id == r;
      var j :| 0 <= j < i && init[j] == s;
      FilledByEarlier(steps, completed, tool, i, j);
      assert forall k :: 0 <= k < i && steps[k].id == r ==> k == j;
    } else {
      assert forall j :: 0 <= j < i ==> init[j].id in Ids(init);
    }
  }

  lemma FilledByEarlier(steps: seq<PlanStep>, completed: set<Id>, tool: Tool, i: nat, j: nat)
    requires DistinctIds(steps) && j < i <= |steps|
    ensures HasOutput(InOrder(steps[..i], completed, tool).outputs, steps[j].id) <==>
              steps[j].id !in completed && Shows(tool, steps[j], InOrder(steps[..j], completed, tool).outputs)
  {
    hide InOrder;
    InOrderBooks(steps[..i], steps[..i], completed, tool);
    assert steps[..i][..j] == steps[..j] && steps[..i][j] == steps[j];
    InOrderRecords(steps[..i], completed, tool, j);
  }

  // ---- A retry that loses an output ------------------------------------------------------------------------

  const FIRST := PlanStep("step1", "echo", [("message", Text([Lit("hello")]))])
  const SECOND := PlanStep("step2", "echo", [("message", Text([Ref("step1")]))])

  /** The first plan has one step; the revised plan adds a step that refers to it. */
  function Retried(round: nat): seq<PlanStep> {
    if round == 0 then [FIRST] else [FIRST, SECOND]
  }

  const HELLO: Resolved := [("message", ResolvedArg.Filled("hello"))]
  const TEMPLATE: Resolved := [("message", ResolvedArg.Filled(Template("step1")))]

  function OutcomeOf(result: ToolResult): Outcome {
    match result
    case Returned(v) => Outcome.Succeeded(v)
    case Raised(e) => Outcome.Failed(e)
  }

  lemma RetriedRefs()
    ensures Refs(FIRST) == {} && Refs(SECOND) == {"step1"}
    ensures forall m: map<Id, Value> :: Resolve(FIRST.args, m) == HELLO
    ensures forall m: map<Id, Value> :: Lookup(m, "step1").Null? ==> Resolve(SECOND.args, m) == TEMPLATE
  {
    assert FIRST.args[0].1.pieces == [Lit("hello")] && SECOND.args[0].1.pieces == [Ref("step1")];
    assert SECOND.args[0].1.pieces[0] == Ref("step1");
    assert Mentions(SECOND, "step1");
    var hello, ref := [Lit("hello")], [Ref("step1")];
    assert hello[..0] == [] && ref[..0] == [];
    assert "" + "hello" == "hello";
    forall m: map<Id, Value> ensures Resolve(FIRST.args, m) == HELLO {
      assert Substitute(hello, m) == "" + "hello";
      assert ResolveArg(FIRST.args[0].1, m) == ResolvedArg.Filled("hello");
    }
    forall m: map<Id, Value> | Lookup(m, "step1").Null? ensures Resolve(SECOND.args, m) == TEMPLATE {
      assert Substitute(ref, m) == "" + Template("step1") == Template("step1");
      assert ResolveArg(SECOND.args[0].1, m) == ResolvedArg.Filled(Template("step1"));
    }
  }

  lemma RetriedIsFine(round: nat)
    ensures DistinctIds(Retried(round)) && Executable(Some(Retried(round))) && !Sorter.HasCycle(Deps(Retried(round)))
    ensures FIRST.id == "step1" && SECOND.id == "step2" && FIRST.id != SECOND.id
    ensures FIRST in Retried(round) && (SECOND in Retried(round) <==> round > 0)
    ensures forall id :: id in Ids(Retried(round)) <==> id == "step1" || (round > 0 && id == "step2")
  {
    var plan := Retried(round);
    assert "step1"[4] != "step2"[4];
    RetriedRefs();
    assert plan[0] == FIRST && (round > 0 ==> plan[1] == SECOND);
    assert round > 0 ==> FIRST in plan[..1];
    PlanOrderIsTopological(plan);
    Sorter.OrderExcludesCycle(Deps(plan), IdList(plan));
  }

  lemma InRecords(results: seq<Record>, m: map<Id, Outcome>, id: Id)
    requires RecordsOf(results, m) && id in m
    ensures (id, m[id]) in results
  {
  }

  lemma FirstRecords(tool: Tool, results: seq<Record>, id: Id)
    requires PassIs(Retried(0), {}, tool, results) && tool("echo", HELLO).Returned?
    ensures Called(Some(results), id) <==> id == "step1"
  {
    RetriedIsFine(0);
    RetriedRefs();
    hide Executable, DistinctIds, Retried, InOrder, Resolve, Refs, Sorter.HasCycle;
    var m :| RecordsOf(results, m) && OutcomesAre(Retried(0), {}, tool, m);
    assert m["step1"] == StepOutcome(FIRST, OutputsOf(m), {}, tool);
    InRecords(results, m, "step1");
  }

  lemma SecondRecords(completed: set<Id>, tool: Tool, results: seq<Record>)
    requires PassIs(Retried(1), completed, tool, results) && "step1" in completed && "step2" !in completed
    ensures ("step1", Skipped) in results && ("step2", OutcomeOf(tool("echo", TEMPLATE))) in results
  {
    RetriedIsFine(1);
    RetriedRefs();
    var m :| RecordsOf(results, m) && OutcomesAre(Retried(1), completed, tool, m);
    assert m["step1"] == StepOutcome(FIRST, OutputsOf(m), completed, tool);
    assert m["step2"] == StepOutcome(SECOND, OutputsOf(m), completed, tool);
    InRecords(results, m, "step1");
    InRecords(results, m, "step2");
  }

  lemma RoundZero(tool: Tool, pass: Option<seq<Record>>)
    requires RoundIs(Some(Retried(0)), tool, [], pass) && tool("echo", HELLO).Returned?
    ensures pass.Some? && forall id :: Called(pass, id) <==> id == "step1"
  {
    RetriedIsFine(0);
    hide PassIs, Called, Retried, Executable;
    var none :| CompletedIs(none, []) && PassIs(Retried(0), none, tool, pass.value);
    assert none == {};
    forall id ensures Called(pass, id) <==> id == "step1" { FirstRecords(tool, pass.value, id); }
  }

  lemma RoundOne(tool: Tool, earlier: Option<seq<Record>>, pass: Option<seq<Record>>)
    requires RoundIs(Some(Retried(1)), tool, [earlier], pass)
    requires forall id :: Called(earlier, id) <==> id == "step1"
    ensures pass.Some?
    ensures ("step1", Skipped) in pass.value && ("step2", OutcomeOf(tool("echo", TEMPLATE))) in pass.value
  {
    RetriedIsFine(1);
    hide PassIs, Called, Retried, Executable;
    var completed :| CompletedIs(completed, [earlier]) && PassIs(Retried(1), completed, tool, pass.value);
    assert "step1" in completed by { assert Called([earlier][0], "step1"); }
    SecondRecords(completed, tool, pass.value);
  }

  lemma RetriedRounds(planner: nat -> Option<seq<PlanStep>>, tool: Tool, passes: seq<Option<seq<Record>>>)
    requires RoundsAre(planner, tool, passes) && |passes| == 2 && tool("echo", HELLO).Returned?
    requires planner(0) == Some(Retried(0)) && planner(1) == Some(Retried(1))
    ensures passes[1].Some? && Latest(passes) == passes[1]
    ensures ("step1", Skipped) in passes[1].value && ("step2", OutcomeOf(tool("echo", TEMPLATE))) in passes[1].value
  {
    hide RoundIs, Called, Retried;
    assert passes[..0] == [] && passes[..1] == [passes[0]];
    RoundZero(tool, passes[0]);
    RoundOne(tool, passes[0], passes[1]);
  }

  lemma HistoryGives(s: GraphState, planner: nat -> Option<seq<PlanStep>>, critic: nat -> Verdict,
                     passes: seq<Option<seq<Record>>>)
    requires HistoryIs(s, planner, critic, passes) && |s.history| == 2 == |passes|
    ensures s.history[0].plan == planner(0) && s.history[1].plan == planner(1)
    ensures s.history[1].execution == Latest(passes)
  {
    assert passes[..2] == passes;
  }

  /** Round 0 plans and calls step1, and the critic fails it; round 1 plans step1 and a step2 that refers to it.  Then
      step1 is skipped, and step2's tool is called with the reference as it is written. */
  method RetryLosesOutput(task: string, tools: seq<string>, maxIterations: int, tool: Tool, parallel: bool,
                          turns: nat -> nat -> seq<Event>) returns (end: End)
    requires task != "" && tools != [] && maxIterations >= 2 && tool("echo", HELLO).Returned?
    ensures end.Returned? && end.state.phase.Done? && |end.state.history| == 2
    ensures end.state.history[0].plan == Some([FIRST]) && end.state.history[1].plan == Some([FIRST, SECOND])
    ensures var execution := end.state.history[1].execution;
            && execution.Some? && ("step1", Skipped) in execution.value
            && ("step2", OutcomeOf(tool("echo", TEMPLATE))) in execution.value
  {
    var planner := (k: nat) => Some(Retried(k));
    var critic := (k: nat) => Verdict(k > 0);
    forall k ensures DistinctIds(Retried(k)) && Executable(Some(Retried(k))) { RetriedIsFine(k); }
    assert Retried(0) == [FIRST] && Retried(1) == [FIRST, SECOND];
    hide *;
    var evaluations;
    ghost var passes;
    end, evaluations, passes := Run(task, tools, maxIterations, planner, critic, tool, parallel, turns);
    assert !critic(0).passed && critic(1).passed;
    assert Executable(planner(0)) && evaluations == 2;
    RetriedRounds(planner, tool, passes);
    HistoryGives(end.state, planner, critic, passes);
  }

  // ---- A round that uses an output --------------------------------------------------------------------------

  function Greeting(text: string): Resolved {
    [("message", ResolvedArg.Filled(text))]
  }

  lemma SecondFilled(m: map<Id, Value>, text: string)
    requires Lookup(m, "step1") == Shown(text)
    ensures Resolve(SECOND.args, m) == Greeting(text)
  {
    var empty: seq<Piece> := [];
    assert Resolve([("message", Text(empty))], m) == [("message", ResolvedArg.Filled(""))];
    PieceReplaced("message", empty, Ref("step1"), empty, m, "", "");
    assert empty + [Ref("step1")] + empty == [Ref("step1")];
    assert "" + text + "" == text;
  }

  lemma BothRecords(tool: Tool, text: string, results: seq<Record>)
    requires PassIs(Retried(1), {}, tool, results) && tool("echo", HELLO) == ToolResult.Returned(Shown(text))
    ensures ("step1", Outcome.Succeeded(Shown(text))) in results
    ensures ("step2", OutcomeOf(tool("echo", Greeting(text)))) in results
  {
    RetriedIsFine(1);
    RetriedRefs();
    hide Executable, DistinctIds, Retried, InOrder, Resolve, Refs, Sorter.HasCycle;
    var m :| RecordsOf(results, m) && OutcomesAre(Retried(1), {}, tool, m);
    assert m["step1"] == StepOutcome(FIRST, OutputsOf(m), {}, tool);
    assert m["step2"] == StepOutcome(SECOND, OutputsOf(m), {}, tool);
    SecondFilled(OutputsOf(m), text);
    InRecords(results, m, "step1");
    InRecords(results, m, "step2");
  }

  lemma RoundFills(tool: Tool, text: string, pass: Option<seq<Record>>)
    requires RoundIs(Some(Retried(1)), tool, [], pass) && tool("echo", HELLO) == ToolResult.Returned(Shown(text))
    ensures pass.Some?
    ensures ("step2", OutcomeOf(tool("echo", Greeting(text)))) in pass.value
  {
    RetriedIsFine(1);
    hide PassIs, Called, Retried, Executable;
    var none :| CompletedIs(none, []) && PassIs(Retried(1), none, tool, pass.value);
    assert none == {};
    BothRecords(tool, text, pass.value);
  }

  /** A run of one round that plans step1 and a step2 that refers to it: when step1's tool shows a text, step2's tool is
      called with that text. */
  method RoundUsesOutput(task: string, tools: seq<string>, maxIterations: int, tool: Tool, text: string, parallel: bool,
                         turns: nat -> nat -> seq<Event>) returns (end: End)
    requires task != "" && tools != [] && tool("echo", HELLO) == ToolResult.Returned(Shown(text))
    ensures end.Returned? && end.state.phase.Done? && |end.state.history| == 1
    ensures end.state.history[0].plan == Some([FIRST, SECOND])
    ensures var execution := end.state.history[0].execution;
            execution.Some? && ("step2", OutcomeOf(tool("echo", Greeting(text)))) in execution.value
  {
    var planner := (k: nat) => Some(Retried(1));
    var critic := (k: nat) => Verdict(true);
    RetriedIsFine(1);
    assert Retried(1) == [FIRST, SECOND];
    hide *;
    var evaluations;
    ghost var passes;
    end, evaluations, passes := Run(task, tools, maxIterations, planner, critic, tool, parallel, turns);
    assert critic(0).passed && Executable(planner(0)) && evaluations == 1;
    FirstOfRounds(end.state, planner, critic, tool, passes);
    RoundFills(tool, text, passes[0]);
  }

  lemma FirstOfRounds(s: GraphState, planner: nat -> Option<seq<PlanStep>>, critic: nat -> Verdict, tool: Tool,
                      passes: seq<Option<seq<Record>>>)
    requires HistoryIs(s, planner, critic, passes) && |s.history| == 1 == |passes| && RoundsAre(planner, tool, passes)
    requires Executable(planner(0))
    ensures s.history[0].plan == planner(0) && s.history[0].execution == passes[0]
    ensures RoundIs(planner(0), tool, [], passes[0])
  {
    assert passes[..0] == [] && passes[..1] == passes;
  }
}
