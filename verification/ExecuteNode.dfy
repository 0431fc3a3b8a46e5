/** `execute_node` from the dependency graph on: ready batches, the fallback for cycles, and the records it returns. */
module ExecuteNode {
  import opened Plan
  import opened Executor
  import Sorter

  /** Running steps one after another. */
  function InOrder(steps: seq<PlanStep>, completed: set<Id>, tool: Tool): Pass {
    if steps == [] then Begin(completed)
    else RunStep(InOrder(steps[..|steps| - 1], completed, tool), steps[|steps| - 1], tool)
  }

  /** In this order every step comes after the steps it mentions. */
  ghost predicate RefsComeFirst(steps: seq<PlanStep>) {
    forall i :: 0 <= i < |steps| ==> Refs(steps[i]) <= Ids(steps[..i])
  }

  ghost predicate Completes(completed: set<Id>, p: Pass) {
    p.completed == completed + set id | id in p.outcomes && p.outcomes[id].Succeeded?
  }

  /** No completed step is called again, and no other step is passed over. */
  ghost predicate SkipsCompleted(completed: set<Id>, p: Pass) {
    forall id :: id in p.outcomes ==> (p.outcomes[id].Skipped? <==> id in completed)
  }

  lemma RunBooks(ids: seq<PlanStep>, completed: set<Id>, tool: Tool, p: Pass, s: PlanStep)
    requires BooksInv(ids, completed, p) && s.id in Ids(ids) && !Begun(p, s.id) && p.flight == map[]
    ensures BooksInv(ids, completed, RunStep(p, s, tool)) && RunStep(p, s, tool).flight == map[]
    ensures RunStep(p, s, tool).outcomes.Keys == p.outcomes.Keys + {s.id}
    ensures RunStep(p, s, tool).outcomes == p.outcomes[s.id := StepOutcome(s, p.outputs, completed, tool)]
    ensures forall id :: id != s.id ==> Lookup(RunStep(p, s, tool).outputs, id) == Lookup(p.outputs, id)
  {
    StartBooks(ids, completed, p, s);
    if s.id !in p.completed {
      FinishBooks(ids, completed, tool, StartStep(p, s), s);
    }
  }

  lemma {:induction false} InOrderBooks(all: seq<PlanStep>, steps: seq<PlanStep>, completed: set<Id>, tool: Tool)
    requires DistinctIds(steps) && Ids(steps) <= Ids(all)
    ensures var p := InOrder(steps, completed, tool);
            BooksInv(all, completed, p) && p.flight == map[] && p.outcomes.Keys == Ids(steps)
  {
    if steps != [] {
      var init, s := steps[..|steps| - 1], steps[|steps| - 1];
      assert steps == init + [s];
      InOrderBooks(all, init, completed, tool);
      assert s in steps;
      assert s.id !in Ids(init);
      RunBooks(all, completed, tool, InOrder(init, completed, tool), s);
    }
  }

  /** Step by step in plan order, every step sees exactly the outputs of the steps before it, and its record stays. */
  lemma {:induction false} InOrderRecords(steps: seq<PlanStep>, completed: set<Id>, tool: Tool, i: nat)
    requires DistinctIds(steps) && i < |steps|
    ensures steps[i].id in InOrder(steps, completed, tool).outcomes
    ensures InOrder(steps, completed, tool).outcomes[steps[i].id]
            == StepOutcome(steps[i], InOrder(steps[..i], completed, tool).outputs, completed, tool)
  {
    hide StepOutcome, BooksInv, RunStep, Lookup, OutputsOf;
    var init, s := steps[..|steps| - 1], steps[|steps| - 1];
    InOrderBooks(steps, init, completed, tool);
    assert forall t :: t in init ==> t.id != s.id;
    assert s in steps;
    RunBooks(steps, completed, tool, InOrder(init, completed, tool), s);
    if i < |steps| - 1 {
      InOrderRecords(init, completed, tool, i);
      assert init[..i] == steps[..i];
      assert init[i] == steps[i];
    }
  }

  lemma {:induction false} LaterOutputs(steps: seq<PlanStep>, completed: set<Id>, tool: Tool, i: nat, id: Id)
    requires DistinctIds(steps) && i <= |steps| && id in Ids(steps[..i])
    ensures Lookup(InOrder(steps, completed, tool).outputs, id)
            == Lookup(InOrder(steps[..i], completed, tool).outputs, id)
    decreases |steps|
  {
    if i == |steps| {
      assert steps[..i] == steps;
    } else {
      var init, s := steps[..|steps| - 1], steps[|steps| - 1];
      assert init[..i] == steps[..i];
      LaterOutputs(init, completed, tool, i, id);
      InOrderBooks(steps, init, completed, tool);
      assert s in steps;
      RunBooks(steps, completed, tool, InOrder(init, completed, tool), s);
    }
  }

  lemma InOrderSolves(steps: seq<PlanStep>, completed: set<Id>, tool: Tool, i: nat)
    requires DistinctIds(steps) && i < |steps| && Refs(steps[i]) <= Ids(steps[..i])
    ensures steps[i].id in InOrder(steps, completed, tool).outcomes
    ensures InOrder(steps, completed, tool).outcomes[steps[i].id]
            == StepOutcome(steps[i], InOrder(steps, completed, tool).outputs, completed, tool)
  {
    hide InOrder, Refs, Mentions, Resolve;
    var after, before := InOrder(steps, completed, tool).outputs, InOrder(steps[..i], completed, tool).outputs;
    InOrderRecords(steps, completed, tool, i);
    forall id | id in Refs(steps[i]) ensures Lookup(after, id) == Lookup(before, id) {
      LaterOutputs(steps, completed, tool, i, id);
    }
    ResolveDependsOnRefs(steps[i], after, before);
  }

  /** Running a plan sequentially in any order that respects its references gives the plan's solution. */
  lemma SequentialIsSolution(steps: seq<PlanStep>, completed: set<Id>, tool: Tool)
    requires DistinctIds(steps) && RefsComeFirst(steps)
    ensures Solution(steps, completed, tool, InOrder(steps, completed, tool).outcomes)
  {
    hide InOrder, Refs, StepOutcome;
    var p := InOrder(steps, completed, tool);
    InOrderBooks(steps, steps, completed, tool);
    forall s | s in steps ensures p.outcomes[s.id] == StepOutcome(s, OutputsOf(p.outcomes), completed, tool) {
      var i :| 0 <= i < |steps| && steps[i] == s;
      InOrderSolves(steps, completed, tool, i);
    }
  }

  function IdList(steps: seq<PlanStep>): (r: seq<Id>)
    ensures |r| == |steps| && forall i :: 0 <= i < |r| ==> r[i] == steps[i].id
  {
    seq(|steps|, i requires 0 <= i < |steps| => steps[i].id)
  }

  lemma PlanOrderIsTopological(steps: seq<PlanStep>)
    requires DistinctIds(steps) && RefsComeFirst(steps)
    ensures Sorter.Topological(Deps(steps), IdList(steps))
  {
    hide Refs, Mentions;
    var order := IdList(steps);
    forall i | 0 <= i < |order|
        ensures order[i] in Deps(steps) && Deps(steps)[order[i]] <= Sorter.Elements(order[..i]) {
      DepsAreRefs(steps, steps[i]);
      forall id | id in Refs(steps[i]) ensures id in Sorter.Elements(order[..i]) {
        var s :| s in steps[..i] && s.id == id;
        var j :| 0 <= j < i && steps[j] == s;
        assert order[..i][j] == id;
      }
    }
    forall id ensures id in Sorter.Elements(order) <==> id in Ids(steps) {
      if id in Ids(steps) {
        var i :| 0 <= i < |steps| && steps[i].id == id;
        assert order[i] == id;
      }
    }
  }

  /** Any listing of the same steps in which references come first gives, run one by one, what every pass gives. */
  lemma SequentialAgrees(steps: seq<PlanStep>, listing: seq<PlanStep>, completed: set<Id>, tool: Tool,
                         m: map<Id, Outcome>)
    requires DistinctIds(listing) && RefsComeFirst(listing)
    requires forall s :: s in steps <==> s in listing
    requires Solution(steps, completed, tool, m)
    ensures InOrder(listing, completed, tool).outcomes == m
  {
    hide InOrder, StepOutcome, RefsComeFirst;
    assert Ids(steps) == Ids(listing);
    SequentialIsSolution(listing, completed, tool);
    PlanOrderIsTopological(listing);
    UniqueSolution(listing, completed, tool, InOrder(listing, completed, tool).outcomes, m, IdList(listing));
  }

  // ---- The pass ----------------------------------------------------------------------------------------

  type Record = (Id, Outcome)

  predicate RecordsOf(results: seq<Record>, outcomes: map<Id, Outcome>) {
    && (forall i, j :: 0 <= i < j < |results| ==> results[i].0 != results[j].0)
    && (forall i :: 0 <= i < |results| ==> results[i].0 in outcomes && outcomes[results[i].0] == results[i].1)
    && (forall id :: id in outcomes ==> (id, outcomes[id]) in results)
  }

  lemma AddRecord(results: seq<Record>, outcomes: map<Id, Outcome>, id: Id, o: Outcome)
    requires RecordsOf(results, outcomes) && id !in outcomes
    ensures RecordsOf(results + [(id, o)], outcomes[id := o])
  {
  }

  ghost predicate InBatch(steps: seq<PlanStep>, batch: set<Id>, from: Pass, p: Pass) {
    && from.outcomes.Keys <= p.outcomes.Keys <= from.outcomes.Keys + batch
    && p.flight.Keys <= batch
    && (forall id :: id in from.outcomes ==> p.outcomes[id] == from.outcomes[id])
  }

  lemma RunKeepsInv(steps: seq<PlanStep>, completed: set<Id>, tool: Tool, p: Pass, id: Id)
    requires DistinctIds(steps) && PassInv(steps, completed, tool, p) && p.flight == map[]
    requires id in Ids(steps) && id !in p.outcomes && RefsUnder(steps, id) <= p.outcomes.Keys
    ensures var s := StepOf(steps, id);
            var q := RunStep(p, s, tool);
            && PassInv(steps, completed, tool, q) && q.flight == map[]
            && q.outcomes == p.outcomes[id := StepOutcome(s, p.outputs, completed, tool)]
  {
    var s := StepOf(steps, id);
    StartKeepsInv(steps, completed, tool, p, id);
    var q := StartStep(p, s);
    if id in q.flight { FinishKeepsInv(steps, completed, tool, q, id); }
    RunBooks(steps, completed, tool, p, s);
  }

  lemma HappenKeepsInv(steps: seq<PlanStep>, completed: set<Id>, tool: Tool, batch: set<Id>, from: Pass, p: Pass,
                       e: Event)
    requires DistinctIds(steps) && PassInv(steps, completed, tool, p) && InBatch(steps, batch, from, p)
    requires e.id in batch && e.id !in from.outcomes && CanHappen(steps, p, e)
    ensures PassInv(steps, completed, tool, Happen(steps, tool, p, e))
    ensures InBatch(steps, batch, from, Happen(steps, tool, p, e))
    ensures p.outcomes.Keys <= Happen(steps, tool, p, e).outcomes.Keys
    ensures Begun(Happen(steps, tool, p, e), e.id)
    ensures e.Finish? ==> e.id in Happen(steps, tool, p, e).outcomes
  {
    if e.Start? { StartKeepsInv(steps, completed, tool, p, e.id); }
    else { FinishKeepsInv(steps, completed, tool, p, e.id); }
    HappenInBatch(steps, completed, tool, batch, from, p, e);
  }

  lemma HappenInBatch(steps: seq<PlanStep>, completed: set<Id>, tool: Tool, batch: set<Id>, from: Pass, p: Pass,
                      e: Event)
    requires InBatch(steps, batch, from, p)
    requires p.outcomes.Keys !! p.flight.Keys
    requires e.id in batch && e.id !in from.outcomes && CanHappen(steps, p, e)
    ensures InBatch(steps, batch, from, Happen(steps, tool, p, e))
    ensures p.outcomes.Keys <= Happen(steps, tool, p, e).outcomes.Keys
    ensures Begun(Happen(steps, tool, p, e), e.id)
    ensures e.Finish? ==> e.id in Happen(steps, tool, p, e).outcomes
  {
  }

  /** Sequential branch: the steps of a batch one at a time. */
  method RunSequential(steps: seq<PlanStep>, ghost completed: set<Id>, tool: Tool, batch: set<Id>, from: Pass,
                       before: seq<Record>)
    returns (p: Pass, results: seq<Record>)
    requires DistinctIds(steps) && PassInv(steps, completed, tool, from) && from.flight == map[]
    requires batch <= Ids(steps) && batch !! from.outcomes.Keys
    requires forall id :: id in batch ==> RefsUnder(steps, id) <= from.outcomes.Keys
    requires RecordsOf(before, from.outcomes)
    ensures PassInv(steps, completed, tool, p) && p.flight == map[]
    ensures p.outcomes.Keys == from.outcomes.Keys + batch && RecordsOf(results, p.outcomes)
    ensures before <= results && forall id :: id in from.outcomes ==> p.outcomes[id] == from.outcomes[id]
  {
    hide *;
    p, results := from, before;
    var todo := batch;
    while todo != {}
      invariant todo <= batch && PassInv(steps, completed, tool, p) && p.flight == map[]
      invariant p.outcomes.Keys == from.outcomes.Keys + (batch - todo) && RecordsOf(results, p.outcomes)
      invariant before <= results && forall id :: id in from.outcomes ==> p.outcomes[id] == from.outcomes[id]
      decreases todo
    {
      var id :| id in todo;
      var s := StepOf(steps, id);
      RunKeepsInv(steps, completed, tool, p, id);
      AddRecord(results, p.outcomes, id, StepOutcome(s, p.outputs, completed, tool));
      p := RunStep(p, s, tool);
      results := results + [(id, p.outcomes[id])];
      todo := todo - {id};
    }
  }

  /** Parallel branch: the steps of a batch interleave as `turns` says, and `gather` waits for all of them. */
  method Gather(steps: seq<PlanStep>, ghost completed: set<Id>, tool: Tool, batch: set<Id>, from: Pass,
                turns: seq<Event>)
    returns (p: Pass)
    requires DistinctIds(steps) && PassInv(steps, completed, tool, from) && from.flight == map[]
    requires batch <= Ids(steps) && batch !! from.outcomes.Keys
    requires forall id :: id in batch ==> RefsUnder(steps, id) <= from.outcomes.Keys
    ensures PassInv(steps, completed, tool, p) && p.flight == map[]
    ensures p.outcomes.Keys == from.outcomes.Keys + batch
    ensures forall id :: id in from.outcomes ==> p.outcomes[id] == from.outcomes[id]
  {
    p := from;
    for i := 0 to |turns|
      invariant PassInv(steps, completed, tool, p) && InBatch(steps, batch, from, p)
    {
      if turns[i].id in batch && CanHappen(steps, p, turns[i]) {
        HappenKeepsInv(steps, completed, tool, batch, from, p, turns[i]);
        p := Happen(steps, tool, p, turns[i]);
      }
    }
    var todo := batch;
    while todo != {}
      invariant todo <= batch && PassInv(steps, completed, tool, p) && InBatch(steps, batch, from, p)
      invariant forall id :: id in batch - todo ==> id in p.outcomes
      decreases todo
    {
      var id :| id in todo;
      todo := todo - {id};
      if !Begun(p, id) {
        HappenKeepsInv(steps, completed, tool, batch, from, p, Start(id));
        p := Happen(steps, tool, p, Start(id));
      }
      if id in p.flight {
        HappenKeepsInv(steps, completed, tool, batch, from, p, Finish(id));
        p := Happen(steps, tool, p, Finish(id));
      }
    }
  }

  method RunParallel(steps: seq<PlanStep>, ghost completed: set<Id>, tool: Tool, batch: set<Id>, from: Pass,
                     before: seq<Record>, turns: seq<Event>)
    returns (p: Pass, results: seq<Record>)
    requires DistinctIds(steps) && PassInv(steps, completed, tool, from) && from.flight == map[]
    requires batch <= Ids(steps) && batch !! from.outcomes.Keys
    requires forall id :: id in batch ==> RefsUnder(steps, id) <= from.outcomes.Keys
    requires RecordsOf(before, from.outcomes)
    ensures PassInv(steps, completed, tool, p) && p.flight == map[]
    ensures p.outcomes.Keys == from.outcomes.Keys + batch && RecordsOf(results, p.outcomes)
    ensures before <= results && forall id :: id in from.outcomes ==> p.outcomes[id] == from.outcomes[id]
  {
    hide PassInv, RecordsOf, DistinctIds, RefsUnder;
    p := Gather(steps, completed, tool, batch, from, turns);
    results := before;
    var todo := batch;
    ghost var seen := from.outcomes;
    while todo != {}
      invariant todo <= batch && seen.Keys == from.outcomes.Keys + (batch - todo)
      invariant forall id :: id in seen ==> id in p.outcomes && seen[id] == p.outcomes[id]
      invariant RecordsOf(results, seen) && before <= results
      decreases todo
    {
      var id :| id in todo;
      todo := todo - {id};
      AddRecord(results, seen, id, p.outcomes[id]);
      results := results + [(id, p.outcomes[id])];
      seen := seen[id := p.outcomes[id]];
    }
    assert seen == p.outcomes;
  }

  method DoneAll(sorter: Sorter.TopologicalSorter, batch: set<Id>)
    requires sorter.Valid() && batch <= sorter.passed && batch !! sorter.finished
    modifies sorter`open, sorter`ready, sorter`finished
    ensures sorter.Valid() && sorter.finished == old(sorter.finished) + batch
  {
    var todo := batch;
    while todo != {}
      invariant sorter.Valid() && todo <= batch && sorter.finished == old(sorter.finished) + (batch - todo)
      decreases todo
    {
      var id :| id in todo;
      todo := todo - {id};
      sorter.Done(id);
    }
  }

  lemma InOrderStep(steps: seq<PlanStep>, completed: set<Id>, tool: Tool, i: nat)
    requires DistinctIds(steps) && i < |steps|
    ensures var p, q := InOrder(steps[..i], completed, tool), InOrder(steps[..i + 1], completed, tool);
            && q == RunStep(p, steps[i], tool)
            && steps[i].id !in p.outcomes && steps[i].id in q.outcomes
            && q.outcomes == p.outcomes[steps[i].id := q.outcomes[steps[i].id]]
  {
    hide StepOutcome, BooksInv, RunStep;
    InOrderBooks(steps, steps[..i], completed, tool);
    assert steps[..i + 1][..i] == steps[..i];
    assert steps[i] in steps;
    assert forall t :: t in steps[..i] ==> t.id != steps[i].id;
    RunBooks(steps, completed, tool, InOrder(steps[..i], completed, tool), steps[i]);
  }

  lemma InOrderWhole(steps: seq<PlanStep>, completed: set<Id>, tool: Tool)
    requires DistinctIds(steps)
    ensures InOrder(steps, completed, tool).outcomes.Keys == Ids(steps)
    ensures Completes(completed, InOrder(steps, completed, tool))
    ensures SkipsCompleted(completed, InOrder(steps, completed, tool))
  {
    InOrderBooks(steps, steps, completed, tool);
    var p := InOrder(steps, completed, tool);
    forall id | id in p.outcomes ensures p.outcomes[id].Skipped? <==> id in completed {
      var i :| 0 <= i < |steps| && steps[i].id == id;
      InOrderRecords(steps, completed, tool, i);
    }
  }

  /** The fallback for cyclic references: plan order. */
  method RunInPlanOrder(steps: seq<PlanStep>, completed: set<Id>, tool: Tool) returns (p: Pass, results: seq<Record>)
    requires DistinctIds(steps)
    ensures p == InOrder(steps, completed, tool) && p.outcomes.Keys == Ids(steps) && RecordsOf(results, p.outcomes)
    ensures Completes(completed, p) && SkipsCompleted(completed, p) && |results| == |steps|
    ensures forall i :: 0 <= i < |steps| ==> results[i].0 == steps[i].id
  {
    hide RunStep, DistinctIds, Completes, SkipsCompleted;
    p, results := Begin(completed), [];
    for i := 0 to |steps|
      invariant p == InOrder(steps[..i], completed, tool) && RecordsOf(results, p.outcomes)
      invariant |results| == i && forall j :: 0 <= j < i ==> results[j].0 == steps[j].id
    {
      InOrderStep(steps, completed, tool, i);
      ghost var before := p.outcomes;
      p := RunStep(p, steps[i], tool);
      AddRecord(results, before, steps[i].id, p.outcomes[steps[i].id]);
      results := results + [(steps[i].id, p.outcomes[steps[i].id])];
    }
    assert steps[..|steps|] == steps;
    InOrderWhole(steps, completed, tool);
  }

  predicate MoreThanOne(batch: set<Id>) {
    |batch| > 1
  }

  lemma BeginInv(steps: seq<PlanStep>, completed: set<Id>, tool: Tool)
    ensures PassInv(steps, completed, tool, Begin(completed)) && Begin(completed).flight == map[]
    ensures Begin(completed).outcomes == map[] && RecordsOf([], Begin(completed).outcomes)
  {
  }

  lemma PassDone(steps: seq<PlanStep>, completed: set<Id>, tool: Tool, p: Pass)
    requires PassInv(steps, completed, tool, p) && p.outcomes.Keys == Ids(steps)
    ensures Solution(steps, completed, tool, p.outcomes) && Completes(completed, p) && SkipsCompleted(completed, p)
  {
  }

  function IdsOf(results: seq<Record>): set<Id> {
    set r | r in results :: r.0
  }

  /** Every record comes after the records of all steps that its step mentions. */
  ghost predicate InReferenceOrder(steps: seq<PlanStep>, results: seq<Record>) {
    forall i :: 0 <= i < |results| ==> RefsUnder(steps, results[i].0) <= IdsOf(results[..i])
  }

  lemma NoRecords(steps: seq<PlanStep>)
    ensures InReferenceOrder(steps, [])
  {
  }

  /** A batch whose references are all recorded already extends the records in order. */
  lemma BatchInOrder(steps: seq<PlanStep>, before: seq<Record>, results: seq<Record>, from: Pass, p: Pass,
                     batch: set<Id>)
    requires InReferenceOrder(steps, before) && before <= results
    requires RecordsOf(before, from.outcomes) && RecordsOf(results, p.outcomes)
    requires p.outcomes.Keys == from.outcomes.Keys + batch
    requires forall id :: id in batch ==> RefsUnder(steps, id) <= from.outcomes.Keys
    ensures InReferenceOrder(steps, results)
  {
    hide RefsUnder;
    forall i | 0 <= i < |results| ensures RefsUnder(steps, results[i].0) <= IdsOf(results[..i]) {
      if i < |before| {
        assert results[..i] == before[..i] && results[i] == before[i];
      } else {
        forall id | id in from.outcomes ensures id in IdsOf(results[..i]) && id != results[i].0 {
          var j :| 0 <= j < |before| && before[j] == (id, from.outcomes[id]);
          assert results[j] == before[j] && results[..i][j] == before[j];
        }
      }
    }
  }

  /** One pass.  Without a cycle the outcomes are the plan's only solution, in either mode and for every
      order and interleaving, and every step comes after the steps it mentions; with one, the steps run once each in
      plan order.  Every step has one record. */
  method ExecutePass(steps: seq<PlanStep>, completed: set<Id>, tool: Tool, parallel: bool, turns: nat -> seq<Event>)
    returns (p: Pass, results: seq<Record>)
    requires DistinctIds(steps) && RefsKnown(steps)
    ensures p.outcomes.Keys == Ids(steps) && RecordsOf(results, p.outcomes)
    ensures Completes(completed, p) && SkipsCompleted(completed, p)
    ensures !Sorter.HasCycle(Deps(steps)) ==>
              Solution(steps, completed, tool, p.outcomes) && InReferenceOrder(steps, results)
    ensures Sorter.HasCycle(Deps(steps)) ==>
              && p == InOrder(steps, completed, tool) && |results| == |steps|
              && forall i :: 0 <= i < |steps| ==> results[i].0 == steps[i].id
  {
    hide *;
    var deps := BuildDag(steps);
    assert deps == Deps(steps);
    DepsClosed(steps);
    BeginInv(steps, completed, tool);
    var sorter := new Sorter.TopologicalSorter(deps);
    var cyclic, order := sorter.Prepare();
    if cyclic {
      p, results := RunInPlanOrder(steps, completed, tool);
      return;
    }
    p, results := Begin(completed), [];
    assert InReferenceOrder(steps, []) by { NoRecords(steps); }
    var k := 0;
    var active := sorter.IsActive();
    while active
      invariant sorter.deps == deps && sorter.Valid() && fresh(sorter)
      invariant sorter.passed == sorter.finished == p.outcomes.Keys && p.flight == map[]
      invariant PassInv(steps, completed, tool, p) && RecordsOf(results, p.outcomes)
      invariant InReferenceOrder(steps, results)
      invariant active <==> sorter.ready != {}
      decreases deps.Keys - sorter.finished, active
    {
      var batch := sorter.GetReady();
      ghost var from, before := p, results;
      if parallel && MoreThanOne(batch) {
        p, results := RunParallel(steps, completed, tool, batch, p, results, turns(k));
      } else {
        p, results := RunSequential(steps, completed, tool, batch, p, results);
      }
      BatchInOrder(steps, before, results, from, p, batch);
      DoneAll(sorter, batch);
      k := k + 1;
      active := sorter.IsActive();
    }
    sorter.InactiveMeansFinished(order, |order|);
    PassDone(steps, completed, tool, p);
  }

  // ---- What a pass records is determined -----------------------------------------------------------------

  /** The outcomes of a pass: without a cycle the plan's solution, with one those of plan order. */
  ghost predicate OutcomesAre(steps: seq<PlanStep>, completed: set<Id>, tool: Tool, m: map<Id, Outcome>) {
    && m.Keys == Ids(steps)
    && (!Sorter.HasCycle(Deps(steps)) ==> Solution(steps, completed, tool, m))
    && (Sorter.HasCycle(Deps(steps)) ==> m == InOrder(steps, completed, tool).outcomes)
  }

  ghost predicate PassIs(steps: seq<PlanStep>, completed: set<Id>, tool: Tool, results: seq<Record>) {
    exists m :: RecordsOf(results, m) && OutcomesAre(steps, completed, tool, m)
  }

  predicate SameRecords(p: seq<Record>, q: seq<Record>) {
    (forall r :: r in p ==> r in q) && (forall r :: r in q ==> r in p)
  }

  lemma OutcomesAreUnique(steps: seq<PlanStep>, completed: set<Id>, tool: Tool, m: map<Id, Outcome>,
                          n: map<Id, Outcome>)
    requires DistinctIds(steps) && RefsKnown(steps)
    requires OutcomesAre(steps, completed, tool, m) && OutcomesAre(steps, completed, tool, n)
    ensures m == n
  {
    hide InOrder, Solution, RefsKnown;
    if !Sorter.HasCycle(Deps(steps)) {
      DepsClosed(steps);
      Sorter.AcyclicHasOrder(Deps(steps));
      var order :| Sorter.Topological(Deps(steps), order);
      UniqueSolution(steps, completed, tool, m, n, order);
    }
  }

  /** Plan, completed steps and tool determine what a pass records, up to the order of the records. */
  lemma PassIsDetermined(steps: seq<PlanStep>, completed: set<Id>, tool: Tool, p: seq<Record>, q: seq<Record>)
    requires DistinctIds(steps) && RefsKnown(steps)
    requires PassIs(steps, completed, tool, p) && PassIs(steps, completed, tool, q)
    ensures SameRecords(p, q)
  {
    var m :| RecordsOf(p, m) && OutcomesAre(steps, completed, tool, m);
    var n :| RecordsOf(q, n) && OutcomesAre(steps, completed, tool, n);
    OutcomesAreUnique(steps, completed, tool, m, n);
    hide OutcomesAre, RecordsOf, DistinctIds, RefsKnown;
    SameMap(p, q, m);
    SameMap(q, p, m);
  }

  lemma SameMap(p: seq<Record>, q: seq<Record>, m: map<Id, Outcome>)
    requires RecordsOf(p, m) && RecordsOf(q, m)
    ensures forall r :: r in p ==> r in q
  {
    forall r | r in p ensures r in q {
      var i :| 0 <= i < |p| && p[i] == r;
      assert (r.0, m[r.0]) in q;
    }
  }
}
