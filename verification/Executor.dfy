/** One execute pass over a plan: steps start once their batch is ready, run in any interleaving,
    and record one outcome each. */
module Executor {
  import opened Plan
  import Sorter

  /** What a tool call comes to; a timeout is a failure. */
  datatype ToolResult = Returned(value: Value) | Raised(error: string)

  type Tool = (string, Resolved) -> ToolResult

  datatype Outcome = Skipped | Succeeded(value: Value) | Failed(error: string)

  /** The local state of `execute_node`: `step_outputs`, `completed_ids`, the calls in flight with the
      arguments they were given, and the result recorded for each step so far. */
  datatype Pass = Pass(
    outputs: map<Id, Value>, completed: set<Id>, flight: map<Id, Resolved>, outcomes: map<Id, Outcome>)

  function Begin(completed: set<Id>): Pass {
    Pass(map[], completed, map[], map[])
  }

  function StartStep(p: Pass, s: PlanStep): Pass {
    if s.id in p.completed then p.(outcomes := p.outcomes[s.id := Skipped])
    else p.(flight := p.flight[s.id := Resolve(s.args, p.outputs)])
  }

  function FinishStep(p: Pass, s: PlanStep, tool: Tool): Pass
    requires s.id in p.flight
  {
    var q := p.(flight := p.flight - {s.id});
    match tool(s.tool, p.flight[s.id])
    case Returned(v) =>
      q.(outputs := p.outputs[s.id := v], completed := p.completed + {s.id},
         outcomes := p.outcomes[s.id := Succeeded(v)])
    case Raised(e) => q.(outcomes := p.outcomes[s.id := Failed(e)])
  }

  function RunStep(p: Pass, s: PlanStep, tool: Tool): Pass {
    var q := StartStep(p, s);
    if s.id in q.flight then FinishStep(q, s, tool) else q
  }

  // ---- What a pass should come to ---------------------------------------------------------------------

  function OutputsOf(m: map<Id, Outcome>): (r: map<Id, Value>)
    ensures forall id :: id in m && m[id].Succeeded? ==> Lookup(r, id) == m[id].value
    ensures forall id :: !(id in m && m[id].Succeeded?) ==> Lookup(r, id) == Null
  {
    map id | id in m && m[id].Succeeded? :: m[id].value
  }

  function StepOutcome(s: PlanStep, outputs: map<Id, Value>, completed: set<Id>, tool: Tool): Outcome {
    if s.id in completed then Skipped
    else match tool(s.tool, Resolve(s.args, outputs))
      case Returned(v) => Succeeded(v)
      case Raised(e) => Failed(e)
  }

  /** A map of outcomes in which every step's outcome follows from the outputs of the others. */
  ghost predicate Solution(steps: seq<PlanStep>, completed: set<Id>, tool: Tool, m: map<Id, Outcome>) {
    && m.Keys == Ids(steps)
    && forall s :: s in steps ==> m[s.id] == StepOutcome(s, OutputsOf(m), completed, tool)
  }

  function Deps(steps: seq<PlanStep>): (deps: map<Id, set<Id>>)
    ensures deps.Keys == Ids(steps)
    ensures forall id :: id in deps ==> deps[id] == RefsUnder(steps, id)
  {
    map id | id in Ids(steps) :: RefsUnder(steps, id)
  }

  lemma DepsAreRefs(steps: seq<PlanStep>, s: PlanStep)
    requires DistinctIds(steps) && s in steps
    ensures s.id in Deps(steps) && Deps(steps)[s.id] == Refs(s)
  {
    var i :| 0 <= i < |steps| && steps[i] == s;
    RefsUnderDistinct(steps, i);
  }

  lemma DepsClosed(steps: seq<PlanStep>)
    requires DistinctIds(steps) && RefsKnown(steps)
    ensures Sorter.Closed(Deps(steps))
  {
    forall id | id in Deps(steps) ensures Deps(steps)[id] <= Ids(steps) {
      DepsAreRefs(steps, StepOf(steps, id));
    }
  }

  function StepOf(steps: seq<PlanStep>, id: Id): (s: PlanStep)
    requires id in Ids(steps)
    ensures s in steps && s.id == id
  {
    if steps[|steps| - 1].id == id then steps[|steps| - 1] else StepOf(steps[..|steps| - 1], id)
  }

  lemma StepOfDistinct(steps: seq<PlanStep>, s: PlanStep)
    requires DistinctIds(steps) && s in steps
    ensures StepOf(steps, s.id) == s
  {
  }

  lemma {:induction false} SolutionPrefix(steps: seq<PlanStep>, completed: set<Id>, tool: Tool,
                                          m: map<Id, Outcome>, n: map<Id, Outcome>, order: seq<Id>, k: nat)
    requires DistinctIds(steps) && Sorter.Topological(Deps(steps), order) && k <= |order|
    requires Solution(steps, completed, tool, m) && Solution(steps, completed, tool, n)
    ensures forall i :: 0 <= i < k ==> order[i] in m && order[i] in n && m[order[i]] == n[order[i]]
  {
    hide StepOutcome, Mentions, DistinctIds, Lookup;
    if k > 0 {
      SolutionPrefix(steps, completed, tool, m, n, order, k - 1);
      assert order[k - 1] in Sorter.Elements(order);
      var s := StepOf(steps, order[k - 1]);
      DepsAreRefs(steps, s);
      forall id | id in Refs(s) ensures Lookup(OutputsOf(m), id) == Lookup(OutputsOf(n), id) {
        assert id in Sorter.Elements(order[..k - 1]);
      }
      SameOutcome(s, completed, tool, OutputsOf(m), OutputsOf(n));
    }
  }

  lemma SameOutcome(s: PlanStep, completed: set<Id>, tool: Tool, m: map<Id, Value>, n: map<Id, Value>)
    requires AgreeOn(Refs(s), m, n)
    ensures StepOutcome(s, m, completed, tool) == StepOutcome(s, n, completed, tool)
  {
    ResolveDependsOnRefs(s, m, n);
  }

  /** An acyclic plan determines its outcomes. */
  lemma UniqueSolution(steps: seq<PlanStep>, completed: set<Id>, tool: Tool,
                       m: map<Id, Outcome>, n: map<Id, Outcome>, order: seq<Id>)
    requires DistinctIds(steps) && Sorter.Topological(Deps(steps), order)
    requires Solution(steps, completed, tool, m) && Solution(steps, completed, tool, n)
    ensures m == n
  {
    SolutionPrefix(steps, completed, tool, m, n, order, |order|);
    forall id | id in m ensures m[id] == n[id] { assert id in Sorter.Elements(order); }
  }

  // ---- Interleavings -------------------------------------------------------------------------------------

  datatype Event = Start(id: Id) | Finish(id: Id)

  predicate Begun(p: Pass, id: Id) {
    id in p.flight || id in p.outcomes
  }

  /** A step may start once everything it mentions has its result; it may finish once it is in flight. */
  predicate CanHappen(steps: seq<PlanStep>, p: Pass, e: Event) {
    match e
    case Start(id) => id in Ids(steps) && !Begun(p, id) && RefsUnder(steps, id) <= p.outcomes.Keys
    case Finish(id) => id in Ids(steps) && id in p.flight
  }

  function Happen(steps: seq<PlanStep>, tool: Tool, p: Pass, e: Event): Pass
    requires CanHappen(steps, p, e)
  {
    match e
    case Start(id) => StartStep(p, StepOf(steps, id))
    case Finish(id) => FinishStep(p, StepOf(steps, id), tool)
  }

  predicate IsSchedule(steps: seq<PlanStep>, tool: Tool, p: Pass, es: seq<Event>)
    decreases |es|
  {
    es == [] || (CanHappen(steps, p, es[0]) && IsSchedule(steps, tool, Happen(steps, tool, p, es[0]), es[1..]))
  }

  function After(steps: seq<PlanStep>, tool: Tool, p: Pass, es: seq<Event>): Pass
    requires IsSchedule(steps, tool, p, es)
    decreases |es|
  {
    if es == [] then p else After(steps, tool, Happen(steps, tool, p, es[0]), es[1..])
  }

  /** What `step_outputs` and `completed_ids` hold is what the recorded outcomes say. */
  ghost predicate BooksInv(steps: seq<PlanStep>, completed: set<Id>, p: Pass) {
    && p.outcomes.Keys <= Ids(steps) && p.flight.Keys <= Ids(steps) && p.outcomes.Keys !! p.flight.Keys
    && p.outputs == OutputsOf(p.outcomes)
    && p.completed == completed + p.outputs.Keys
  }

  /** A recorded outcome is the right one already, whatever is still to come. */
  ghost predicate StepInv(completed: set<Id>, tool: Tool, p: Pass, s: PlanStep) {
    && (Begun(p, s.id) ==> Refs(s) <= p.outcomes.Keys)
    && (s.id in p.flight ==> s.id !in completed && p.flight[s.id] == Resolve(s.args, p.outputs))
    && (s.id in p.outcomes ==> p.outcomes[s.id] == StepOutcome(s, p.outputs, completed, tool))
  }

  ghost predicate PassInv(steps: seq<PlanStep>, completed: set<Id>, tool: Tool, p: Pass) {
    BooksInv(steps, completed, p) && forall s :: s in steps ==> StepInv(completed, tool, p, s)
  }

  lemma StartBooks(steps: seq<PlanStep>, completed: set<Id>, p: Pass, s: PlanStep)
    requires BooksInv(steps, completed, p) && s.id in Ids(steps) && !Begun(p, s.id)
    ensures BooksInv(steps, completed, StartStep(p, s))
    ensures StartStep(p, s).outputs == p.outputs && p.outcomes.Keys <= StartStep(p, s).outcomes.Keys
  {
  }

  lemma StartKeepsInv(steps: seq<PlanStep>, completed: set<Id>, tool: Tool, p: Pass, id: Id)
    requires DistinctIds(steps) && PassInv(steps, completed, tool, p) && CanHappen(steps, p, Start(id))
    ensures PassInv(steps, completed, tool, Happen(steps, tool, p, Start(id)))
  {
    var s := StepOf(steps, id);
    var q := StartStep(p, s);
    DepsAreRefs(steps, s);
    StartBooks(steps, completed, p, s);
    forall t | t in steps ensures StepInv(completed, tool, q, t) {
      assert StepInv(completed, tool, p, t);
      if t.id == id { StepOfDistinct(steps, t); }
    }
  }

  lemma FinishBooks(steps: seq<PlanStep>, completed: set<Id>, tool: Tool, p: Pass, s: PlanStep)
    requires BooksInv(steps, completed, p) && s.id in p.flight
    ensures BooksInv(steps, completed, FinishStep(p, s, tool))
    ensures FinishStep(p, s, tool).outcomes.Keys == p.outcomes.Keys + {s.id}
    ensures forall id :: id != s.id ==> Lookup(FinishStep(p, s, tool).outputs, id) == Lookup(p.outputs, id)
  {
  }

  lemma FinishKeepsInv(steps: seq<PlanStep>, completed: set<Id>, tool: Tool, p: Pass, id: Id)
    requires DistinctIds(steps) && PassInv(steps, completed, tool, p) && CanHappen(steps, p, Finish(id))
    ensures PassInv(steps, completed, tool, Happen(steps, tool, p, Finish(id)))
  {
    assert id !in p.outcomes;
    hide BooksInv, StepInv;
    var s := StepOf(steps, id);
    var q := FinishStep(p, s, tool);
    FinishBooks(steps, completed, tool, p, s);
    forall t | t in steps ensures StepInv(completed, tool, q, t) {
      if t.id == id { StepOfDistinct(steps, t); }
      FinishKeepsStep(completed, tool, p, s, t);
    }
  }

  lemma FinishKeepsStep(completed: set<Id>, tool: Tool, p: Pass, s: PlanStep, t: PlanStep)
    requires StepInv(completed, tool, p, t) && s.id in p.flight && s.id !in p.outcomes && (t.id == s.id ==> t == s)
    requires forall id :: id != s.id ==> Lookup(FinishStep(p, s, tool).outputs, id) == Lookup(p.outputs, id)
    requires FinishStep(p, s, tool).outcomes.Keys == p.outcomes.Keys + {s.id}
    ensures StepInv(completed, tool, FinishStep(p, s, tool), t)
  {
    if Begun(p, t.id) {
      ResolveDependsOnRefs(t, p.outputs, FinishStep(p, s, tool).outputs);
    }
  }

  lemma {:induction false} ScheduleKeepsInv(steps: seq<PlanStep>, completed: set<Id>, tool: Tool, p: Pass,
                                            es: seq<Event>)
    requires DistinctIds(steps) && PassInv(steps, completed, tool, p) && IsSchedule(steps, tool, p, es)
    ensures PassInv(steps, completed, tool, After(steps, tool, p, es))
    decreases |es|
  {
    if es != [] {
      if es[0].Start? { StartKeepsInv(steps, completed, tool, p, es[0].id); }
      else { FinishKeepsInv(steps, completed, tool, p, es[0].id); }
      ScheduleKeepsInv(steps, completed, tool, Happen(steps, tool, p, es[0]), es[1..]);
    }
  }

  /** Confluence: however the steps of an acyclic plan interleave, every complete schedule records the same
      outcome for every step, and the same steps as completed. */
  lemma Confluence(steps: seq<PlanStep>, completed: set<Id>, tool: Tool, es: seq<Event>, fs: seq<Event>)
    requires DistinctIds(steps) && RefsKnown(steps) && !Sorter.HasCycle(Deps(steps))
    requires IsSchedule(steps, tool, Begin(completed), es) && IsSchedule(steps, tool, Begin(completed), fs)
    requires After(steps, tool, Begin(completed), es).outcomes.Keys == Ids(steps)
    requires After(steps, tool, Begin(completed), fs).outcomes.Keys == Ids(steps)
    ensures After(steps, tool, Begin(completed), es).outcomes == After(steps, tool, Begin(completed), fs).outcomes
    ensures After(steps, tool, Begin(completed), es).completed == After(steps, tool, Begin(completed), fs).completed
  {
    ScheduleKeepsInv(steps, completed, tool, Begin(completed), es);
    ScheduleKeepsInv(steps, completed, tool, Begin(completed), fs);
    var p, q := After(steps, tool, Begin(completed), es), After(steps, tool, Begin(completed), fs);
    DepsClosed(steps);
    Sorter.AcyclicHasOrder(Deps(steps));
    var order :| Sorter.Topological(Deps(steps), order);
    UniqueSolution(steps, completed, tool, p.outcomes, q.outcomes, order);
  }
}
