/** A whole graph run does not depend on the execution mode, nor on how the steps of its passes interleave. */
module GraphRunAgreement {
  import opened Basics
  import opened Plan
  import opened Executor
  import opened ExecuteNode
  import opened GraphRun

  /** Two passes executed or not alike, and recorded the same. */
  ghost predicate SamePass(p: Option<seq<Record>>, q: Option<seq<Record>>) {
    (p.Some? <==> q.Some?) && (p.Some? ==> SameRecords(p.value, q.value))
  }

  lemma SameCalls(p: Option<seq<Record>>, q: Option<seq<Record>>, id: Id)
    requires SamePass(p, q)
    ensures Called(p, id) <==> Called(q, id)
  {
    if Called(p, id) {
      var i :| 0 <= i < |p.value| && p.value[i].0 == id && p.value[i].1.Succeeded?;
      assert p.value[i] in q.value;
    }
    if Called(q, id) {
      var i :| 0 <= i < |q.value| && q.value[i].0 == id && q.value[i].1.Succeeded?;
      assert q.value[i] in p.value;
    }
  }

  lemma SameCompleted(c: set<Id>, d: set<Id>, p: seq<Option<seq<Record>>>, q: seq<Option<seq<Record>>>)
    requires CompletedIs(c, p) && CompletedIs(d, q) && |p| == |q|
    requires forall i :: 0 <= i < |p| ==> SamePass(p[i], q[i])
    ensures c == d
  {
    hide SamePass, Called;
    forall id ensures id in c <==> id in d {
      forall i | 0 <= i < |p| ensures Called(p[i], id) <==> Called(q[i], id) { SameCalls(p[i], q[i], id); }
    }
  }

  /** After passes that recorded the same, the next pass records the same. */
  lemma RoundAgrees(reply: Option<seq<PlanStep>>, tool: Tool, p: seq<Option<seq<Record>>>, q: seq<Option<seq<Record>>>,
                    next: Option<seq<Record>>, next': Option<seq<Record>>)
    requires reply.Some? ==> DistinctIds(reply.value)
    requires RoundIs(reply, tool, p, next) && RoundIs(reply, tool, q, next')
    requires |p| == |q| && forall i :: 0 <= i < |p| ==> SamePass(p[i], q[i])
    ensures SamePass(next, next')
  {
    hide DistinctIds, RefsKnown, CompletedIs, PassIs, SameRecords;
    if next.Some? {
      var c :| CompletedIs(c, p) && PassIs(reply.value, c, tool, next.value);
      var d :| CompletedIs(d, q) && PassIs(reply.value, d, tool, next'.value);
      SameCompleted(c, d, p, q);
      PassIsDetermined(reply.value, c, tool, next.value, next'.value);
    }
  }

  /** Rounds of the same planner and tool record the same, one after the other. */
  lemma {:induction false} RoundsAgree(planner: nat -> Option<seq<PlanStep>>, tool: Tool,
                                       p: seq<Option<seq<Record>>>, q: seq<Option<seq<Record>>>, k: nat)
    requires forall j :: planner(j).Some? ==> DistinctIds(planner(j).value)
    requires RoundsAre(planner, tool, p) && RoundsAre(planner, tool, q) && k <= |p| && k <= |q|
    ensures forall i :: 0 <= i < k ==> SamePass(p[i], q[i])
  {
    hide DistinctIds, RoundIs, SamePass;
    if k > 0 {
      RoundsAgree(planner, tool, p, q, k - 1);
      RoundAgrees(planner(k - 1), tool, p[..k - 1], q[..k - 1], p[k - 1], q[k - 1]);
    }
  }

  /** Two runs on the same task with the same planner, critic and tool, each in a mode of its own and with any
      interleavings: they end alike after the same number of evaluations, record the same outcomes in every round, and
      have completed the same steps. */
  method RunTwice(task: string, tools: seq<string>, maxIterations: int, planner: nat -> Option<seq<PlanStep>>,
                  critic: nat -> Verdict, tool: Tool, parallel: (bool, bool),
                  turns: nat -> nat -> seq<Event>, turns': nat -> nat -> seq<Event>)
    returns (end: End, end': End, evaluations: nat, ghost passes: seq<Option<seq<Record>>>,
             ghost passes': seq<Option<seq<Record>>>)
    requires forall k :: planner(k).Some? ==> DistinctIds(planner(k).value)
    ensures end.Exception? <==> end'.Exception?
    ensures end.Returned? ==> end.state.phase == end'.state.phase
    ensures |end.state.history| == |end'.state.history| && end.state.completed == end'.state.completed
    ensures |passes| == evaluations == |passes'|
    ensures HistoryIs(end.state, planner, critic, passes) && HistoryIs(end'.state, planner, critic, passes')
    ensures forall k :: 0 <= k < evaluations ==> SamePass(passes[k], passes'[k])
  {
    hide DistinctIds, Executable, HistoryIs, RoundsAre, CompletedIs, CalledOnce, SamePass;
    var evaluations';
    end, evaluations, passes := Run(task, tools, maxIterations, planner, critic, tool, parallel.0, turns);
    end', evaluations', passes' := Run(task, tools, maxIterations, planner, critic, tool, parallel.1, turns');
    assert evaluations == evaluations';
    RoundsAgree(planner, tool, passes, passes', evaluations);
    SameCompleted(end.state.completed, end'.state.completed, passes, passes');
  }
}
