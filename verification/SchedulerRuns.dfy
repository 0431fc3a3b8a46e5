/** Conservation of tasks, the retry bound, and termination, over any run of the scheduler. */
module SchedulerRuns {
  import opened Scheduler

  // ---- Every task is in exactly one place -------------------------------------------------------------

  function Ids(q: seq<Task>): multiset<nat> {
    if q == [] then multiset{} else Ids(q[..|q| - 1]) + multiset{q[|q| - 1].id}
  }

  lemma {:induction false} IdsConcat(p: seq<Task>, q: seq<Task>)
    ensures Ids(p + q) == Ids(p) + Ids(q)
  {
    if q == [] {
      assert p + q == p;
    } else {
      assert (p + q)[..|p + q| - 1] == p + q[..|q| - 1];
      IdsConcat(p, q[..|q| - 1]);
    }
  }

  lemma IdsOne(t: Task)
    ensures Ids([t]) == multiset{t.id}
  {
  }

  lemma IdsWithout(q: seq<Task>, k: nat)
    requires k < |q|
    ensures Ids(q) == Ids(Without(q, k)) + multiset{q[k].id}
  {
    hide Ids;
    assert q == q[..k] + ([q[k]] + q[k + 1..]);
    IdsConcat(q[..k], [q[k]] + q[k + 1..]);
    IdsConcat([q[k]], q[k + 1..]);
    IdsOne(q[k]);
    IdsConcat(q[..k], q[k + 1..]);
  }

  lemma {:induction false} IdsHas(q: seq<Task>, i: nat)
    requires i < |q|
    ensures q[i].id in Ids(q)
  {
    if i < |q| - 1 { IdsHas(q[..|q| - 1], i); }
  }

  function Where(s: State): multiset<nat> {
    Ids(s.inbox) + Ids(s.queue) + Ids(s.completed) + Ids(s.failed)
  }

  /** Inbox, queue, completed and failed together hold every submitted task, each once. */
  ghost predicate Conserved(s: State) {
    Where(s) == multiset(s.submitted.Keys)
  }

  /** New tasks have ids of their own. */
  ghost predicate NewTasks(s: State, ts: seq<Task>) {
    && (forall i :: 0 <= i < |ts| ==> ts[i].id !in s.submitted)
    && (forall i, j :: 0 <= i < j < |ts| ==> ts[i].id != ts[j].id)
  }

  function SubmitOne(s: State, t: Task): State {
    s.(inbox := s.inbox + [t], submitted := s.submitted[t.id := t])
  }

  lemma SubmitOneConserves(s: State, t: Task)
    requires t.id !in s.submitted
    ensures Where(SubmitOne(s, t)) == Where(s) + multiset{t.id}
    ensures multiset(SubmitOne(s, t).submitted.Keys) == multiset(s.submitted.Keys) + multiset{t.id}
  {
  }

  lemma NewTasksTail(s: State, ts: seq<Task>)
    requires NewTasks(s, ts) && ts != []
    ensures NewTasks(SubmitOne(s, ts[0]), ts[1..])
  {
  }

  lemma {:induction false} SubmitConserves(s: State, ts: seq<Task>)
    requires Conserved(s) && NewTasks(s, ts)
    ensures Conserved(SubmitAll(s, ts))
    decreases |ts|
  {
    hide Where;
    if ts != [] {
      SubmitOneConserves(s, ts[0]);
      NewTasksTail(s, ts);
      SubmitConserves(SubmitOne(s, ts[0]), ts[1..]);
    }
  }

  /** Submitting changes no earlier submission. */
  lemma {:induction false} SubmitRecords(s: State, ts: seq<Task>)
    requires NewTasks(s, ts)
    ensures forall id :: id in s.submitted ==>
            id in SubmitAll(s, ts).submitted && SubmitAll(s, ts).submitted[id] == s.submitted[id]
    ensures forall i :: 0 <= i < |ts| ==>
            ts[i].id in SubmitAll(s, ts).submitted && SubmitAll(s, ts).submitted[ts[i].id] == ts[i]
    decreases |ts|
  {
    if ts != [] {
      NewTasksTail(s, ts);
      SubmitRecords(SubmitOne(s, ts[0]), ts[1..]);
      forall i | 0 <= i < |ts|
        ensures ts[i].id in SubmitAll(s, ts).submitted && SubmitAll(s, ts).submitted[ts[i].id] == ts[i]
      {
        if i > 0 { assert ts[i] == ts[1..][i - 1]; }
      }
    }
  }

  // ---- Counting attempts -------------------------------------------------------------------------------

  function Count(log: seq<nat>, id: nat): nat {
    if log == [] then 0 else Count(log[..|log| - 1], id) + (if log[|log| - 1] == id then 1 else 0)
  }

  lemma CountSnoc(log: seq<nat>, x: nat, id: nat)
    ensures Count(log + [x], id) == Count(log, id) + (if x == id then 1 else 0)
  {
  }

  /** How often a task may be handed to the handler: once, and once more for each retry it has left. */
  function Allowed(t: Task): nat {
    if t.retryCount <= t.maxRetries then t.maxRetries - t.retryCount + 1 else 1
  }

  /** A task in the system differs from the submitted one by the failures counted so far. */
  ghost predicate Tracks(s: State, t: Task, failures: int) {
    && t.id in s.submitted
    && var o := s.submitted[t.id];
       t == o.(retryCount := t.retryCount) && failures >= 0 && t.retryCount == o.retryCount + failures
  }

  ghost predicate LiveOk(s: State, t: Task) {
    Tracks(s, t, Count(s.dispatched, t.id)) && (Count(s.dispatched, t.id) > 0 ==> t.retryCount <= t.maxRetries)
  }

  ghost predicate CompletedOk(s: State, t: Task) {
    Tracks(s, t, Count(s.dispatched, t.id) - 1) && (Count(s.dispatched, t.id) > 1 ==> t.retryCount <= t.maxRetries)
  }

  ghost predicate FailedOk(s: State, t: Task) {
    Tracks(s, t, Count(s.dispatched, t.id)) && Count(s.dispatched, t.id) == Allowed(s.submitted[t.id])
  }

  ghost predicate Inv(s: State) {
    && Conserved(s)
    && (forall i :: 0 <= i < |s.inbox| ==> LiveOk(s, s.inbox[i]))
    && (forall i :: 0 <= i < |s.queue| ==> LiveOk(s, s.queue[i]))
    && (forall i :: 0 <= i < |s.completed| ==> CompletedOk(s, s.completed[i]))
    && (forall i :: 0 <= i < |s.failed| ==> FailedOk(s, s.failed[i]))
    && (forall id :: id !in s.submitted ==> Count(s.dispatched, id) == 0)
  }

  lemma SubmitInv(s: State, ts: seq<Task>)
    requires Inv(s) && NewTasks(s, ts)
    ensures Inv(SubmitAll(s, ts))
  {
    hide LiveOk, CompletedOk, FailedOk, Count, Where, Ids, SubmitAll;
    var s' := SubmitAll(s, ts);
    SubmitShape(s, ts);
    SubmitConserves(s, ts);
    SubmitRecords(s, ts);
    forall i | 0 <= i < |s'.inbox| ensures LiveOk(s', s'.inbox[i]) {
      if i < |s.inbox| {
        StaysOk(s, s', s.inbox[i]);
      } else {
        assert s'.inbox[i] == ts[i - |s.inbox|] && ts[i - |s.inbox|].id !in s.submitted;
        NewIsOk(s', s'.inbox[i]);
      }
    }
    forall i | 0 <= i < |s.queue| ensures LiveOk(s', s.queue[i]) { StaysOk(s, s', s.queue[i]); }
    forall i | 0 <= i < |s.completed| ensures CompletedOk(s', s.completed[i]) { StaysOk(s, s', s.completed[i]); }
    forall i | 0 <= i < |s.failed| ensures FailedOk(s', s.failed[i]) { StaysOk(s, s', s.failed[i]); }
  }

  /** More submissions change nothing that is known of a task. */
  lemma StaysOk(s: State, s': State, t: Task)
    requires s'.dispatched == s.dispatched
    requires forall id :: id in s.submitted ==> id in s'.submitted && s'.submitted[id] == s.submitted[id]
    ensures LiveOk(s, t) ==> LiveOk(s', t)
    ensures CompletedOk(s, t) ==> CompletedOk(s', t)
    ensures FailedOk(s, t) ==> FailedOk(s', t)
  {
  }

  lemma NewIsOk(s: State, t: Task)
    requires t.id in s.submitted && s.submitted[t.id] == t && Count(s.dispatched, t.id) == 0
    ensures LiveOk(s, t)
  {
  }

  /** What is known of a task depends only on its submission and its count. */
  lemma SameCount(s: State, d: State, u: Task)
    requires d.submitted == s.submitted && Count(d.dispatched, u.id) == Count(s.dispatched, u.id)
    ensures LiveOk(s, u) ==> LiveOk(d, u)
    ensures CompletedOk(s, u) ==> CompletedOk(d, u)
    ensures FailedOk(s, u) ==> FailedOk(d, u)
  {
  }

  lemma DrainWhere(s: State)
    ensures Where(Drain(s)) == Where(s)
  {
    assert Ids([]) == multiset{};
    hide Ids;
    IdsConcat(s.queue, s.inbox);
  }

  lemma DrainInv(s: State)
    requires Inv(s)
    ensures Inv(Drain(s))
  {
    hide Where, LiveOk, CompletedOk, FailedOk, Count, Ids;
    DrainWhere(s);
    KeepsOk(s, Drain(s));
  }

  lemma WaitWhere(s: State)
    ensures Where(Wait(s)) == Where(s)
  {
    hide Ids;
    if s.inbox != [] {
      IdsConcat(s.queue, [s.inbox[0]]);
      IdsConcat([s.inbox[0]], s.inbox[1..]);
      assert s.inbox == [s.inbox[0]] + s.inbox[1..];
    }
  }

  lemma WaitInv(s: State)
    requires Inv(s)
    ensures Inv(Wait(s))
  {
    hide Where, LiveOk, CompletedOk, FailedOk, Count, Ids;
    WaitWhere(s);
    KeepsOk(s, Wait(s));
  }

  /** Moving waiting tasks about changes nothing that is known of any task. */
  lemma KeepsOk(s: State, d: State)
    requires Inv(s) && d.submitted == s.submitted && d.dispatched == s.dispatched
    requires d.completed == s.completed && d.failed == s.failed
    requires d.queue + d.inbox == s.queue + s.inbox
    ensures forall i :: 0 <= i < |d.inbox| ==> LiveOk(d, d.inbox[i])
    ensures forall i :: 0 <= i < |d.queue| ==> LiveOk(d, d.queue[i])
    ensures forall i :: 0 <= i < |d.completed| ==> CompletedOk(d, d.completed[i])
    ensures forall i :: 0 <= i < |d.failed| ==> FailedOk(d, d.failed[i])
  {
    hide LiveOk, CompletedOk, FailedOk, Count, Ids, Where;
    var all := s.queue + s.inbox;
    forall i | 0 <= i < |all| ensures LiveOk(d, all[i]) {
      SameCount(s, d, all[i]);
      if i >= |s.queue| { assert all[i] == s.inbox[i - |s.queue|]; }
    }
    forall i | 0 <= i < |d.inbox| ensures LiveOk(d, d.inbox[i]) { assert d.inbox[i] == all[|d.queue| + i]; }
    forall i | 0 <= i < |d.queue| ensures LiveOk(d, d.queue[i]) { assert d.queue[i] == all[i]; }
    forall i | 0 <= i < |d.completed| ensures CompletedOk(d, d.completed[i]) { SameCount(s, d, d.completed[i]); }
    forall i | 0 <= i < |d.failed| ensures FailedOk(d, d.failed[i]) { SameCount(s, d, d.failed[i]); }
  }

  ghost predicate InHand(s: State, t: Task) {
    && Count(s.dispatched, t.id) > 0
    && Tracks(s, t, Count(s.dispatched, t.id) - 1) && (Count(s.dispatched, t.id) > 1 ==> t.retryCount <= t.maxRetries)
  }

  /** Between the pop and the end of the handler the task is in dispatch, and nowhere else. */
  ghost predicate DispatchInv(s: State, t: Task) {
    && Where(s) + multiset{t.id} == multiset(s.submitted.Keys)
    && InHand(s, t)
    && (forall i :: 0 <= i < |s.inbox| ==> LiveOk(s, s.inbox[i]))
    && (forall i :: 0 <= i < |s.queue| ==> LiveOk(s, s.queue[i]))
    && (forall i :: 0 <= i < |s.completed| ==> CompletedOk(s, s.completed[i]))
    && (forall i :: 0 <= i < |s.failed| ==> FailedOk(s, s.failed[i]))
    && (forall id :: id !in s.submitted ==> Count(s.dispatched, id) == 0)
  }

  lemma TakeWhere(s: State)
    requires Conserved(s) && s.queue != []
    ensures var t := s.queue[Best(s.queue)];
            && Where(Take(s)) + multiset{t.id} == multiset(s.submitted.Keys)
            && t.id !in Where(Take(s))
  {
    hide Ids, Best;
    var b := Best(s.queue);
    IdsWithout(s.queue, b);
    assert Where(s) == Where(Take(s)) + multiset{s.queue[b].id};
    assert multiset(s.submitted.Keys)[s.queue[b].id] <= 1;
  }

  lemma TakeCount(s: State, u: Task)
    requires s.queue != [] && u.id != s.queue[Best(s.queue)].id
    ensures Count(Take(s).dispatched, u.id) == Count(s.dispatched, u.id)
  {
  }

  lemma TakeInv(s: State)
    requires Inv(s) && s.queue != []
    ensures DispatchInv(Take(s), s.queue[Best(s.queue)])
  {
    hide LiveOk, CompletedOk, FailedOk, Count, Ids, Best, Tracks;
    var b := Best(s.queue);
    var t := s.queue[b];
    var d := Take(s);
    TakeWhere(s);
    TakenOk(s, t);
    forall i | 0 <= i < |d.inbox| ensures LiveOk(d, d.inbox[i]) {
      IdsHas(d.inbox, i);
      TakeCount(s, d.inbox[i]);
      SameCount(s, d, d.inbox[i]);
    }
    forall i | 0 <= i < |d.queue| ensures LiveOk(d, d.queue[i]) {
      IdsHas(d.queue, i);
      assert d.queue[i] == s.queue[if i < b then i else i + 1];
      TakeCount(s, d.queue[i]);
      SameCount(s, d, d.queue[i]);
    }
    forall i | 0 <= i < |d.completed| ensures CompletedOk(d, d.completed[i]) {
      IdsHas(d.completed, i);
      TakeCount(s, d.completed[i]);
      SameCount(s, d, d.completed[i]);
    }
    forall i | 0 <= i < |d.failed| ensures FailedOk(d, d.failed[i]) {
      IdsHas(d.failed, i);
      TakeCount(s, d.failed[i]);
      SameCount(s, d, d.failed[i]);
    }
  }

  lemma TakenOk(s: State, t: Task)
    requires s.queue != [] && t == s.queue[Best(s.queue)] && LiveOk(s, t)
    requires forall id :: id !in s.submitted ==> Count(s.dispatched, id) == 0
    ensures InHand(Take(s), t)
    ensures forall id :: id !in s.submitted ==> Count(Take(s).dispatched, id) == 0
  {
  }

  lemma {:induction false} SubmitDuring(s: State, t: Task, ts: seq<Task>)
    requires DispatchInv(s, t) && NewTasks(s, ts)
    ensures DispatchInv(SubmitAll(s, ts), t)
    decreases |ts|
  {
    hide DispatchInv;
    if ts != [] {
      SubmitOneDuring(s, t, ts[0]);
      NewTasksTail(s, ts);
      SubmitDuring(SubmitOne(s, ts[0]), t, ts[1..]);
    }
  }

  lemma OneMoreOk(s: State, u: Task, v: Task)
    requires u.id !in s.submitted
    ensures LiveOk(s, v) ==> LiveOk(SubmitOne(s, u), v)
    ensures CompletedOk(s, v) ==> CompletedOk(SubmitOne(s, u), v)
    ensures FailedOk(s, v) ==> FailedOk(SubmitOne(s, u), v)
    ensures InHand(s, v) ==> InHand(SubmitOne(s, u), v)
    ensures Count(s.dispatched, u.id) == 0 ==> LiveOk(SubmitOne(s, u), u)
  {
  }

  lemma SubmitOneDuring(s: State, t: Task, u: Task)
    requires DispatchInv(s, t) && u.id !in s.submitted
    ensures DispatchInv(SubmitOne(s, u), t)
  {
    hide LiveOk, CompletedOk, FailedOk, InHand, Count, Ids, Where;
    var s' := SubmitOne(s, u);
    SubmitOneConserves(s, u);
    OneMoreOk(s, u, t);
    OneMoreOk(s, u, u);
    forall i | 0 <= i < |s'.inbox| ensures LiveOk(s', s'.inbox[i]) {
      if i < |s.inbox| { OneMoreOk(s, u, s.inbox[i]); }
    }
    forall i | 0 <= i < |s.queue| ensures LiveOk(s', s.queue[i]) { OneMoreOk(s, u, s.queue[i]); }
    forall i | 0 <= i < |s.completed| ensures CompletedOk(s', s.completed[i]) { OneMoreOk(s, u, s.completed[i]); }
    forall i | 0 <= i < |s.failed| ensures FailedOk(s', s.failed[i]) { OneMoreOk(s, u, s.failed[i]); }
  }

  lemma SettleWhere(s: State, t: Task, raises: bool)
    ensures Where(Settle(s, t, raises)) == Where(s) + multiset{t.id}
  {
    hide Ids;
    var u := t.(retryCount := t.retryCount + 1);
    IdsConcat(s.completed, [t]);
    IdsConcat(s.inbox, [u]);
    IdsConcat(s.failed, [u]);
    IdsOne(t);
    IdsOne(u);
  }

  lemma SettledOk(s: State, t: Task)
    requires InHand(s, t)
    ensures CompletedOk(s, t)
    ensures var u := t.(retryCount := t.retryCount + 1);
            if u.retryCount <= u.maxRetries then LiveOk(s, u) else FailedOk(s, u)
  {
  }

  lemma SettleInv(s: State, t: Task, raises: bool)
    requires DispatchInv(s, t)
    ensures Inv(Settle(s, t, raises))
  {
    hide LiveOk, CompletedOk, FailedOk, InHand, Count, Ids, Where;
    var s' := Settle(s, t, raises);
    SettleWhere(s, t, raises);
    SettledOk(s, t);
    forall v: Task ensures LiveOk(s, v) ==> LiveOk(s', v) { SameCount(s, s', v); }
    forall v: Task ensures CompletedOk(s, v) ==> CompletedOk(s', v) { SameCount(s, s', v); }
    forall v: Task ensures FailedOk(s, v) ==> FailedOk(s', v) { SameCount(s, s', v); }
  }

  /** The tasks of a run's inputs all have ids of their own. */
  ghost predicate NewInputs(s: State, inputs: seq<Input>)
    decreases |inputs|
  {
    inputs == [] ||
    (NewInputs(s, inputs[..|inputs| - 1])
     && var t := Passes(s, inputs[..|inputs| - 1]);
        var i := inputs[|inputs| - 1];
        NewTasks(t, i.before) && NewTasks(SubmitAll(t, i.before), i.during))
  }

  lemma PassInv(s: State, i: Input)
    requires Inv(s) && NewTasks(s, i.before) && NewTasks(SubmitAll(s, i.before), i.during)
    ensures Inv(Pass(s, i))
  {
    hide Inv, DispatchInv, Best;
    SubmitInv(s, i.before);
    DrainInv(SubmitAll(s, i.before));
    var d := Drain(SubmitAll(s, i.before));
    assert NewTasks(d, i.during);
    if d.queue == [] {
      SubmitInv(d, i.during);
      WaitInv(SubmitAll(d, i.during));
    } else {
      var t := d.queue[Best(d.queue)];
      TakeInv(d);
      SubmitDuring(Take(d), t, i.during);
      SettleInv(SubmitAll(Take(d), i.during), t, i.raises);
    }
  }

  lemma {:induction false} RunInv(s: State, inputs: seq<Input>)
    requires Inv(s) && NewInputs(s, inputs)
    ensures Inv(Passes(s, inputs))
    decreases |inputs|
  {
    if inputs != [] {
      RunInv(s, inputs[..|inputs| - 1]);
      PassInv(Passes(s, inputs[..|inputs| - 1]), inputs[|inputs| - 1]);
    }
  }

  function Start(): State {
    State([], [], [], [], [], map[])
  }

  lemma StartInv()
    ensures Inv(Start())
  {
  }

  /** After any run every submitted task is in exactly one place, and has been handed to the handler at most
      as often as it is allowed: a failed task exactly that often, a completed one at least once. */
  lemma ConservedAndBounded(inputs: seq<Input>)
    requires NewInputs(Start(), inputs)
    ensures var s := Passes(Start(), inputs);
            && Where(s) == multiset(s.submitted.Keys)
            && (forall id :: id in s.submitted ==>
                  Where(s)[id] == 1 && Count(s.dispatched, id) <= Allowed(s.submitted[id]))
            && (forall t :: t in s.failed ==>
                  t.id in s.submitted && Count(s.dispatched, t.id) == Allowed(s.submitted[t.id]))
            && (forall t :: t in s.completed ==> t.id in s.submitted && Count(s.dispatched, t.id) >= 1)
  {
    hide Passes, Ids, Count, Allowed, NewInputs;
    var s := Passes(Start(), inputs);
    StartInv();
    RunInv(Start(), inputs);
    forall id | id in s.submitted ensures Where(s)[id] == 1 && Count(s.dispatched, id) <= Allowed(s.submitted[id]) {
      WithinAllowance(s, id);
    }
    forall t | t in s.failed ensures t.id in s.submitted && Count(s.dispatched, t.id) == Allowed(s.submitted[t.id]) {
      var i :| 0 <= i < |s.failed| && s.failed[i] == t;
      assert FailedOk(s, s.failed[i]);
    }
    forall t | t in s.completed ensures t.id in s.submitted && Count(s.dispatched, t.id) >= 1 {
      var i :| 0 <= i < |s.completed| && s.completed[i] == t;
      assert CompletedOk(s, s.completed[i]);
    }
  }

  lemma {:induction false} IdsFind(q: seq<Task>, id: nat) returns (i: nat)
    requires id in Ids(q)
    ensures i < |q| && q[i].id == id
  {
    if q[|q| - 1].id == id { i := |q| - 1; } else { i := IdsFind(q[..|q| - 1], id); }
  }

  lemma WithinAllowance(s: State, id: nat)
    requires Inv(s) && id in s.submitted
    ensures Where(s)[id] == 1 && Count(s.dispatched, id) <= Allowed(s.submitted[id])
  {
    hide Ids, Count;
    assert id in multiset(s.submitted.Keys);
    if id in Ids(s.inbox) {
      var i := IdsFind(s.inbox, id);
      assert LiveOk(s, s.inbox[i]);
    } else if id in Ids(s.queue) {
      var i := IdsFind(s.queue, id);
      assert LiveOk(s, s.queue[i]);
    } else if id in Ids(s.completed) {
      var i := IdsFind(s.completed, id);
      assert CompletedOk(s, s.completed[i]);
    } else {
      var i := IdsFind(s.failed, id);
      assert FailedOk(s, s.failed[i]);
    }
  }

  // ---- Termination -----------------------------------------------------------------------------------------

  function Rest(q: seq<Task>): nat {
    if q == [] then 0 else Rest(q[..|q| - 1]) + Allowed(q[|q| - 1])
  }

  lemma {:induction false} RestConcat(p: seq<Task>, q: seq<Task>)
    ensures Rest(p + q) == Rest(p) + Rest(q)
  {
    if q == [] {
      assert p + q == p;
    } else {
      assert (p + q)[..|p + q| - 1] == p + q[..|q| - 1];
      RestConcat(p, q[..|q| - 1]);
    }
  }

  lemma RestOne(t: Task)
    ensures Rest([t]) == Allowed(t)
  {
  }

  lemma RestWithout(q: seq<Task>, k: nat)
    requires k < |q|
    ensures Rest(q) == Rest(Without(q, k)) + Allowed(q[k])
  {
    hide Rest;
    assert q == q[..k] + ([q[k]] + q[k + 1..]);
    RestConcat(q[..k], [q[k]] + q[k + 1..]);
    RestConcat([q[k]], q[k + 1..]);
    RestOne(q[k]);
    RestConcat(q[..k], q[k + 1..]);
  }

  /** The attempts that the waiting tasks still have. */
  function Outstanding(s: State): nat {
    Rest(s.queue) + Rest(s.inbox)
  }

  /** One pass dispatches at most one task, exactly one if any is waiting, and never adds to what is left. */
  lemma PassSpends(s: State, i: Input)
    ensures |Pass(s, i).dispatched| + Outstanding(Pass(s, i))
            <= |s.dispatched| + Outstanding(s) + Rest(i.before) + Rest(i.during)
    ensures |Pass(s, i).dispatched| == |s.dispatched| + (if s.queue + s.inbox + i.before == [] then 0 else 1)
  {
    hide Best;
    SubmitShape(s, i.before);
    RestConcat(s.inbox, i.before);
    var d := Drain(SubmitAll(s, i.before));
    RestConcat(s.queue, s.inbox + i.before);
    if d.queue == [] {
      SubmitShape(d, i.during);
      assert d.inbox + i.during == i.during;
      if i.during != [] {
        RestConcat(d.queue, [i.during[0]]);
        RestConcat([i.during[0]], i.during[1..]);
        assert i.during == [i.during[0]] + i.during[1..];
      }
    } else {
      var t := d.queue[Best(d.queue)];
      RestWithout(d.queue, Best(d.queue));
      SubmitShape(Take(d), i.during);
      var e := SubmitAll(Take(d), i.during);
      assert e.inbox == i.during;
      SettleSpends(e, t, i.raises);
    }
  }

  lemma SettleSpends(s: State, t: Task, raises: bool)
    ensures Settle(s, t, raises).dispatched == s.dispatched
    ensures Outstanding(Settle(s, t, raises)) + 1 <= Outstanding(s) + Allowed(t)
  {
  }

  function Granted(inputs: seq<Input>): nat {
    if inputs == [] then 0
    else Granted(inputs[..|inputs| - 1]) + Rest(inputs[|inputs| - 1].before) + Rest(inputs[|inputs| - 1].during)
  }

  /** Over a whole run, dispatches plus what is left never exceed the attempts granted by the submissions. */
  lemma {:induction false} DispatchesAreBounded(s: State, inputs: seq<Input>)
    ensures |Passes(s, inputs).dispatched| + Outstanding(Passes(s, inputs))
            <= |s.dispatched| + Outstanding(s) + Granted(inputs)
    decreases |inputs|
  {
    if inputs != [] {
      DispatchesAreBounded(s, inputs[..|inputs| - 1]);
      PassSpends(Passes(s, inputs[..|inputs| - 1]), inputs[|inputs| - 1]);
    }
  }

  lemma RestPositive(q: seq<Task>)
    ensures q != [] ==> Rest(q) > 0
  {
  }

  predicate NoArrivals(inputs: seq<Input>) {
    forall i :: 0 <= i < |inputs| ==> inputs[i].before == [] && inputs[i].during == []
  }

  lemma {:induction false} Draining(s: State, inputs: seq<Input>)
    requires NoArrivals(inputs)
    ensures var t := Passes(s, inputs);
            t.queue + t.inbox == [] || Outstanding(t) + |inputs| <= Outstanding(s)
    decreases |inputs|
  {
    if inputs != [] {
      var init, last := inputs[..|inputs| - 1], inputs[|inputs| - 1];
      Draining(s, init);
      var t := Passes(s, init);
      PassSpends(t, last);
      PassShape(t, last);
      if t.queue + t.inbox == [] {
        assert t.queue + (t.inbox + last.before) == [];
      } else {
        assert t.queue + t.inbox + last.before == t.queue + t.inbox;
      }
    }
  }

  /** Once submissions end, at most as many passes as there are attempts left empty the inbox and the queue,
      and then every submitted task is completed or failed. */
  lemma EverythingSettles(inputs: seq<Input>, more: seq<Input>)
    requires NewInputs(Start(), inputs + more) && NoArrivals(more)
    requires |more| >= Outstanding(Passes(Start(), inputs))
    ensures var t := Passes(Start(), inputs + more);
            t.queue == [] && t.inbox == [] && Ids(t.completed) + Ids(t.failed) == multiset(t.submitted.Keys)
  {
    hide Passes, NewInputs, LiveOk, CompletedOk, FailedOk, Count;
    var s := Passes(Start(), inputs);
    PassesConcat(Start(), inputs, more);
    Draining(s, more);
    var t := Passes(s, more);
    RestPositive(t.queue);
    RestPositive(t.inbox);
    StartInv();
    RunInv(Start(), inputs + more);
    assert t.queue + t.inbox == [];
    assert Ids([]) == multiset{};
  }

  lemma {:induction false} PassesConcat(s: State, p: seq<Input>, q: seq<Input>)
    ensures Passes(s, p + q) == Passes(Passes(s, p), q)
    decreases |q|
  {
    if q == [] {
      assert p + q == p;
    } else {
      assert (p + q)[..|p + q| - 1] == p + q[..|q| - 1];
      PassesConcat(s, p, q[..|q| - 1]);
    }
  }
}
