/** Dependency graphs, and Kahn's algorithm with the `prepare` / `get_ready` / `done` interface of `graphlib`. */
module Sorter {
  import opened Basics

  type Id = string
  type Graph = map<Id, set<Id>>

  predicate Closed(deps: Graph) {
    forall id :: id in deps ==> deps[id] <= deps.Keys
  }

  /** A closed walk along dependencies. */
  ghost predicate IsCycle(deps: Graph, p: seq<Id>) {
    && |p| >= 2 && p[0] == p[|p| - 1]
    && forall i :: 0 <= i < |p| - 1 ==> p[i] in deps && p[i + 1] in deps[p[i]]
  }

  ghost predicate HasCycle(deps: Graph) {
    exists p :: IsCycle(deps, p)
  }

  function Elements(q: seq<Id>): set<Id> {
    set x | x in q
  }

  /** Every node once, each after everything it depends on. */
  predicate Topological(deps: Graph, order: seq<Id>) {
    TopologicalPart(deps, deps.Keys, order)
  }

  predicate TopologicalPart(deps: Graph, part: set<Id>, order: seq<Id>) {
    && Distinct(order)
    && Elements(order) == part
    && forall i :: 0 <= i < |order| ==> order[i] in deps && deps[order[i]] <= Elements(order[..i])
  }

  /** A node of `left` with no dependency in `left`. */
  predicate Free(deps: Graph, left: set<Id>, id: Id) {
    id in left && id in deps && deps[id] !! left
  }

  // ---- Cycles and orders ---------------------------------------------------------------------------

  lemma {:induction false} RankFalls(deps: Graph, order: seq<Id>, p: seq<Id>, k: nat, i: nat) returns (j: nat)
    requires Topological(deps, order) && k < |p|
    requires forall i :: 0 <= i < |p| - 1 ==> p[i] in deps && p[i + 1] in deps[p[i]]
    requires i < |order| && order[i] == p[0]
    ensures j < |order| && order[j] == p[k] && j + k <= i
    decreases k
  {
    if k == 0 {
      j := i;
    } else {
      var h := RankFalls(deps, order, p, k - 1, i);
      assert p[k - 1 + 1] in deps[p[k - 1]];
      j :| 0 <= j < h && order[..h][j] == p[k];
    }
  }

  lemma OrderExcludesCycle(deps: Graph, order: seq<Id>)
    requires Topological(deps, order)
    ensures !HasCycle(deps)
  {
    if HasCycle(deps) {
      var p :| IsCycle(deps, p);
      assert p[0] in Elements(order);
      var i :| 0 <= i < |order| && order[i] == p[0];
      var j := RankFalls(deps, order, p, |p| - 1, i);
    }
  }

  lemma ExtendOrder(deps: Graph, left: set<Id>, order: seq<Id>, id: Id)
    requires Closed(deps) && left <= deps.Keys && Free(deps, left, id)
    requires TopologicalPart(deps, deps.Keys - left, order)
    ensures TopologicalPart(deps, deps.Keys - (left - {id}), order + [id])
  {
    var longer := order + [id];
    forall i | 0 <= i < |longer| ensures longer[i] in deps && deps[longer[i]] <= Elements(longer[..i]) {
      assert longer[..i] == order[..i];
      if i == |order| { assert order[..i] == order; }
    }
    assert Elements(longer) == Elements(order) + {id};
    forall i | 0 <= i < |order| ensures order[i] != id { assert order[i] in Elements(order); }
  }

  ghost predicate IsWalk(deps: Graph, left: set<Id>, p: seq<Id>) {
    && (forall i :: 0 <= i < |p| ==> p[i] in left)
    && (forall i :: 0 <= i < |p| - 1 ==> p[i] in deps && p[i + 1] in deps[p[i]])
  }

  lemma {:induction false} StuckWalk(deps: Graph, left: set<Id>, n: nat) returns (p: seq<Id>)
    requires left <= deps.Keys && left != {}
    requires forall id :: id in left ==> !Free(deps, left, id)
    ensures |p| == n + 1 && IsWalk(deps, left, p)
  {
    if n == 0 {
      var x :| x in left;
      p := [x];
    } else {
      var q := StuckWalk(deps, left, n - 1);
      var last := q[|q| - 1];
      assert !Free(deps, left, last);
      var y :| y in deps[last] && y in left;
      p := q + [y];
    }
  }

  lemma {:induction false} DistinctSize(q: seq<Id>)
    requires Distinct(q)
    ensures |Elements(q)| == |q|
  {
    if q != [] {
      var r := q[..|q| - 1];
      DistinctSize(r);
      assert Elements(q) == Elements(r) + {q[|q| - 1]};
    }
  }

  /** If every node left still waits for another one left, there is a cycle. */
  lemma StuckHasCycle(deps: Graph, left: set<Id>)
    requires left <= deps.Keys && left != {}
    requires forall id :: id in left ==> !Free(deps, left, id)
    ensures HasCycle(deps)
  {
    var p := StuckWalk(deps, left, |left|);
    if Distinct(p) {
      DistinctSize(p);
      SubsetSize(Elements(p), left);
    }
    var i, j :| 0 <= i < j < |p| && p[i] == p[j];
    var c := p[i..j + 1];
    forall k | 0 <= k < |c| - 1 ensures c[k] in deps && c[k + 1] in deps[c[k]] {
      assert c[k] == p[i + k] && c[k + 1] == p[i + k + 1];
    }
    assert IsCycle(deps, c);
  }

  lemma {:induction false} FinishOrder(deps: Graph, left: set<Id>, order: seq<Id>) returns (whole: seq<Id>)
    requires Closed(deps) && !HasCycle(deps) && left <= deps.Keys
    requires TopologicalPart(deps, deps.Keys - left, order)
    ensures Topological(deps, whole)
    decreases left
  {
    if left == {} {
      assert deps.Keys - left == deps.Keys;
      whole := order;
    } else {
      if forall id :: id in left ==> !Free(deps, left, id) {
        StuckHasCycle(deps, left);
      }
      var id :| id in left && Free(deps, left, id);
      ExtendOrder(deps, left, order, id);
      whole := FinishOrder(deps, left - {id}, order + [id]);
    }
  }

  /** A graph has no cycle exactly when its nodes can be put in an order. */
  lemma AcyclicHasOrder(deps: Graph)
    requires Closed(deps)
    ensures !HasCycle(deps) <==> exists order :: Topological(deps, order)
  {
    if !HasCycle(deps) {
      assert deps.Keys - deps.Keys == {};
      var order := FinishOrder(deps, deps.Keys, []);
    } else if order :| Topological(deps, order) {
      OrderExcludesCycle(deps, order);
    }
  }

  // ---- The sorter ------------------------------------------------------------------------------------

  /** `graphlib` counts what this class keeps as sets: a node's open dependencies, and the nodes handed
      out and finished. */
  class TopologicalSorter {
    const deps: Graph
    var open: Graph                 // dependencies not yet done
    var ready: set<Id>
    var passed: set<Id>             // handed out by get_ready
    var finished: set<Id>

    ghost predicate Fresh()
      reads this
    {
      Closed(deps) && open == deps && ready == {} && passed == {} && finished == {}
    }

    ghost predicate Valid()
      reads this
    {
      && Closed(deps)
      && finished <= passed <= deps.Keys
      && open.Keys == deps.Keys && FrontierOk()
      && (forall id :: id in deps ==> open[id] == deps[id] - finished)
    }

    constructor (deps: Graph)
      requires Closed(deps)
      ensures Fresh() && this.deps == deps
    {
      this.deps := deps;
      open, ready, passed, finished := deps, {}, {}, {};
    }

    /** Collects the nodes without dependencies, and reports a cycle exactly when the graph has one. */
    method Prepare() returns (cyclic: bool, ghost order: seq<Id>)
      requires Fresh()
      modifies this`ready
      ensures Valid() && passed == {} && finished == {}
      ensures cyclic <==> HasCycle(deps)
      ensures !cyclic ==> Topological(deps, order)
    {
      var todo := deps.Keys;
      while todo != {}
        invariant todo <= deps.Keys
        invariant ready == set id | id in deps && id !in todo && deps[id] == {}
        decreases todo
      {
        var id :| id in todo;
        todo := todo - {id};
        if open[id] == {} {
          ready := ready + {id};
        }
      }
      cyclic, order := FindCycle();
    }

    /** Removes nodes that wait for nothing until none is left, or until all that are left wait for each other. */
    method FindCycle() returns (cyclic: bool, ghost order: seq<Id>)
      requires Closed(deps)
      ensures cyclic <==> HasCycle(deps)
      ensures !cyclic ==> Topological(deps, order)
    {
      var left := deps.Keys;
      order := [];
      while exists id :: id in left && Free(deps, left, id)
        invariant left <= deps.Keys
        invariant TopologicalPart(deps, deps.Keys - left, order)
        decreases left
      {
        var id :| id in left && Free(deps, left, id);
        ExtendOrder(deps, left, order, id);
        left := left - {id};
        order := order + [id];
      }
      cyclic := left != {};
      if cyclic {
        StuckHasCycle(deps, left);
      } else {
        assert deps.Keys - left == deps.Keys;
        OrderExcludesCycle(deps, order);
      }
    }

    method IsActive() returns (active: bool)
      ensures active <==> finished != passed || ready != {}
    {
      active := finished != passed || ready != {};
    }

    method GetReady() returns (batch: set<Id>)
      requires Valid()
      modifies this`ready, this`passed
      ensures Valid() && batch == old(ready) && ready == {}
      ensures passed == old(passed) + batch && batch !! old(passed)
      ensures forall id :: id in batch ==> id in deps && deps[id] <= finished
    {
      batch := ready;
      passed := passed + ready;
      ready := {};
    }

    /** Marks a handed-out node done; its successors whose last open dependency it was become ready. */
    method Done(id: Id)
      requires Valid() && id in passed && id !in finished
      modifies this`open, this`ready, this`finished
      ensures Valid() && finished == old(finished) + {id} && old(ready) <= ready
    {
      finished := finished + {id};
      open := map x | x in open :: open[x] - {id};
      ready := ready + set x | x in open && id in deps[x] && open[x] == {};
    }

    ghost predicate FrontierOk()
      reads this
    {
      && ready <= open.Keys && ready !! passed
      && forall x :: x in open ==> (x in ready || x in passed <==> open[x] == {})
    }

    /** When nothing is active any more, an acyclic graph has been finished completely. */
    lemma {:induction false} InactiveMeansFinished(order: seq<Id>, k: nat)
      requires Valid() && Topological(deps, order) && finished == passed && ready == {} && k <= |order|
      ensures forall i :: 0 <= i < k ==> order[i] in finished
      ensures k == |order| ==> finished == deps.Keys
    {
      if k > 0 {
        InactiveMeansFinished(order, k - 1);
        var d := order[k - 1];
        assert deps[d] <= finished by {
          forall x | x in deps[d] ensures x in finished { assert x in Elements(order[..k - 1]); }
        }
        assert open[d] == {};
      }
      if k == |order| {
        forall id | id in deps ensures id in finished { assert id in Elements(order); }
      }
    }
  }
}
