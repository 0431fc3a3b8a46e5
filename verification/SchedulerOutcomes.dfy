/** How the handler decides what becomes of a task: one pass, and any run of passes. */
module SchedulerOutcomes {
  import opened Scheduler
  import opened SchedulerRuns

  /** One pass.  With nothing waiting it moves at most the first arrival to the queue.  Otherwise the best of the
      waiting tasks is handed to the handler: if the handler returns, the task is completed; if it raises while
      retries are left, the task goes to the end of the inbox with one more retry; if it raises and none is left,
      the task has failed. */
  lemma PassOutcome(s: State, i: Input)
    ensures var q, s' := s.queue + (s.inbox + i.before), Pass(s, i);
            && (q == [] ==>
                  && s'.dispatched == s.dispatched && s'.completed == s.completed && s'.failed == s.failed
                  && s'.queue + s'.inbox == i.during && |s'.queue| == if i.during == [] then 0 else 1)
            && (q != [] ==>
                  var t := q[Best(q)];
                  var again := t.(retryCount := t.retryCount + 1);
                  && s'.queue == q[..Best(q)] + q[Best(q) + 1..] && s'.dispatched == s.dispatched + [t.id]
                  && s'.completed == s.completed + (if i.raises then [] else [t])
                  && s'.failed == s.failed + (if i.raises && t.retryCount >= t.maxRetries then [again] else [])
                  && s'.inbox == i.during + (if i.raises && t.retryCount < t.maxRetries then [again] else []))
  {
    hide Pass, Best, Settle;
    PassShape(s, i);
    var q := s.queue + (s.inbox + i.before);
    assert [] + i.during == i.during;
    if q == [] {
      if i.during != [] { assert q + [i.during[0]] + i.during[1..] == i.during; }
    } else {
      SettleOutcome(State([] + i.during, Without(q, Best(q)), s.completed, s.failed, s.dispatched + [q[Best(q)].id],
                          Pass(s, i).submitted), q[Best(q)], i.raises);
    }
  }

  lemma SettleOutcome(s: State, t: Task, raises: bool)
    ensures var again, s' := t.(retryCount := t.retryCount + 1), Settle(s, t, raises);
            && s'.queue == s.queue && s'.dispatched == s.dispatched
            && s'.completed == s.completed + (if raises then [] else [t])
            && s'.failed == s.failed + (if raises && t.retryCount >= t.maxRetries then [again] else [])
            && s'.inbox == s.inbox + (if raises && t.retryCount < t.maxRetries then [again] else [])
  {
  }

  /** The task a pass hands to the handler, with whether the handler raised. */
  function Handled(s: State, i: Input): seq<(nat, bool)> {
    var q := s.queue + (s.inbox + i.before);
    if q == [] then [] else [(q[Best(q)].id, i.raises)]
  }

  function Attempts(s: State, inputs: seq<Input>): seq<(nat, bool)> {
    if inputs == [] then []
    else
      var init := inputs[..|inputs| - 1];
      Attempts(s, init) + Handled(Passes(s, init), inputs[|inputs| - 1])
  }

  predicate AllRaised(log: seq<(nat, bool)>, id: nat) {
    forall k :: 0 <= k < |log| && log[k].0 == id ==> log[k].1
  }

  /** The last attempt at this task did not raise. */
  predicate LastReturned(log: seq<(nat, bool)>, id: nat) {
    exists k :: 0 <= k < |log| && log[k] == (id, false) && forall j :: k < j < |log| ==> log[j].0 != id
  }

  predicate LogIs(log: seq<(nat, bool)>, dispatched: seq<nat>) {
    |log| == |dispatched| && forall k :: 0 <= k < |log| ==> log[k].0 == dispatched[k]
  }

  /** What the attempts so far say about a task at each place. */
  ghost predicate AgreesOn(s: State, log: seq<(nat, bool)>, id: nat) {
    && (id in Ids(s.inbox) || id in Ids(s.queue) ==> AllRaised(log, id))
    && (id in Ids(s.completed) ==> LastReturned(log, id))
    && (id in Ids(s.failed) ==> AllRaised(log, id))
  }

  ghost predicate Agrees(s: State, log: seq<(nat, bool)>) {
    forall id :: AgreesOn(s, log, id)
  }

  lemma {:induction false} NotCounted(dispatched: seq<nat>, id: nat)
    requires Count(dispatched, id) == 0
    ensures id !in dispatched
  {
    if dispatched != [] {
      NotCounted(dispatched[..|dispatched| - 1], id);
      assert dispatched == dispatched[..|dispatched| - 1] + [dispatched[|dispatched| - 1]];
    }
  }

  /** An attempt at one task says nothing about the others. */
  lemma OneMoreAttempt(log: seq<(nat, bool)>, t: nat, raised: bool, id: nat)
    ensures id != t ==> (AllRaised(log + [(t, raised)], id) <==> AllRaised(log, id))
    ensures id != t && LastReturned(log, id) ==> LastReturned(log + [(t, raised)], id)
    ensures raised && AllRaised(log, t) ==> AllRaised(log + [(t, raised)], t)
    ensures !raised ==> LastReturned(log + [(t, raised)], t)
  {
    var more := log + [(t, raised)];
    assert more[|log|] == (t, raised);
    assert forall k :: 0 <= k < |log| ==> more[k] == log[k];
  }

  /** The task that a pass hands to the handler, and whether it comes back. */
  function Chosen(s: State, i: Input): Task
    requires s.queue + (s.inbox + i.before) != []
  {
    var q := s.queue + (s.inbox + i.before);
    q[Best(q)]
  }

  predicate ComesBack(t: Task, raises: bool) {
    raises && t.retryCount < t.maxRetries
  }

  /** Where the ids are after a pass that handed a task to the handler. */
  lemma PlacesAfter(s: State, i: Input)
    requires s.queue + (s.inbox + i.before) != []
    ensures var t, s' := Chosen(s, i), Pass(s, i);
            && Ids(s'.queue) + multiset{t.id} == Ids(s.queue) + Ids(s.inbox) + Ids(i.before)
            && Ids(s'.inbox) == Ids(i.during) + (if ComesBack(t, i.raises) then multiset{t.id} else multiset{})
            && Ids(s'.completed) == Ids(s.completed) + (if i.raises then multiset{} else multiset{t.id})
            && Ids(s'.failed)
               == Ids(s.failed) + (if i.raises && !ComesBack(t, i.raises) then multiset{t.id} else multiset{})
  {
    QueueAfter(s, i);
    InboxAfter(s, i);
    CompletedAfter(s, i);
    FailedAfter(s, i);
    hide *;
  }

  lemma InboxAfter(s: State, i: Input)
    requires s.queue + (s.inbox + i.before) != []
    ensures var t := Chosen(s, i);
            Ids(Pass(s, i).inbox) == Ids(i.during) + (if ComesBack(t, i.raises) then multiset{t.id} else multiset{})
  {
    PassOutcome(s, i);
    hide Ids, Pass, Best;
    var t := Chosen(s, i);
    IdsMaybe(i.during, ComesBack(t, i.raises), t.(retryCount := t.retryCount + 1));
  }

  lemma CompletedAfter(s: State, i: Input)
    requires s.queue + (s.inbox + i.before) != []
    ensures Ids(Pass(s, i).completed)
            == Ids(s.completed) + (if i.raises then multiset{} else multiset{Chosen(s, i).id})
  {
    PassOutcome(s, i);
    hide Ids, Pass, Best;
    IdsMaybe(s.completed, !i.raises, Chosen(s, i));
  }

  lemma FailedAfter(s: State, i: Input)
    requires s.queue + (s.inbox + i.before) != []
    ensures var t := Chosen(s, i);
            Ids(Pass(s, i).failed)
            == Ids(s.failed) + (if i.raises && !ComesBack(t, i.raises) then multiset{t.id} else multiset{})
  {
    PassOutcome(s, i);
    hide Ids, Pass, Best;
    var t := Chosen(s, i);
    IdsMaybe(s.failed, i.raises && !ComesBack(t, i.raises), t.(retryCount := t.retryCount + 1));
  }

  lemma QueueAfter(s: State, i: Input)
    requires s.queue + (s.inbox + i.before) != []
    ensures Ids(Pass(s, i).queue) + multiset{Chosen(s, i).id} == Ids(s.queue) + Ids(s.inbox) + Ids(i.before)
  {
    var q := s.queue + (s.inbox + i.before);
    PassOutcome(s, i);
    hide Ids, Pass, Best;
    assert Pass(s, i).queue == Without(q, Best(q));
    hide Without;
    QueuePlaces(s.queue, s.inbox, i.before, Best(q));
  }

  lemma QueuePlaces(queue: seq<Task>, inbox: seq<Task>, more: seq<Task>, b: nat)
    requires b < |queue + (inbox + more)|
    ensures var q := queue + (inbox + more);
            Ids(Without(q, b)) + multiset{q[b].id} == Ids(queue) + Ids(inbox) + Ids(more)
  {
    hide Ids;
    IdsWithout(queue + (inbox + more), b);
    IdsConcat(queue, inbox + more);
    IdsConcat(inbox, more);
  }

  lemma IdsMaybe(q: seq<Task>, c: bool, t: Task)
    ensures Ids(q + (if c then [t] else [])) == Ids(q) + (if c then multiset{t.id} else multiset{})
  {
    IdsNone();
    hide Ids;
    IdsConcat(q, if c then [t] else []);
    IdsOne(t);
  }

  lemma IdsNone()
    ensures Ids([]) == multiset{}
  {
  }

  lemma PlacesAfterWaiting(s: State, i: Input)
    requires s.queue + (s.inbox + i.before) == []
    ensures var s' := Pass(s, i);
            Ids(s'.queue) + Ids(s'.inbox) == Ids(i.during) && s'.completed == s.completed && s'.failed == s.failed
  {
    PassOutcome(s, i);
    hide Pass, Ids;
    IdsConcat(Pass(s, i).queue, Pass(s, i).inbox);
  }

  /** New tasks have not been attempted. */
  lemma NewIsUntried(s: State, log: seq<(nat, bool)>, ts: seq<Task>, id: nat)
    requires Inv(s) && LogIs(log, s.dispatched) && id in Ids(ts)
    requires forall i :: 0 <= i < |ts| ==> ts[i].id !in s.submitted
    ensures AllRaised(log, id)
  {
    var i := IdsFind(ts, id);
    NotCounted(s.dispatched, id);
    assert forall k :: 0 <= k < |log| ==> log[k].0 in s.dispatched;
  }

  lemma DuringIsNew(s: State, before: seq<Task>, during: seq<Task>)
    requires NewTasks(s, before) && NewTasks(SubmitAll(s, before), during)
    ensures forall i :: 0 <= i < |during| ==> during[i].id !in s.submitted
  {
    SubmitRecords(s, before);
  }

  lemma OncePerId(s: State, id: nat)
    requires Inv(s)
    ensures Where(s)[id] <= 1
  {
    assert Where(s) == multiset(s.submitted.Keys);
  }

  lemma LogStep(s: State, i: Input, log: seq<(nat, bool)>)
    requires LogIs(log, s.dispatched)
    ensures LogIs(log + Handled(s, i), Pass(s, i).dispatched)
  {
    PassOutcome(s, i);
    hide Pass, Best;
  }

  lemma AgreesStep(s: State, i: Input, log: seq<(nat, bool)>)
    requires Inv(s) && Agrees(s, log) && LogIs(log, s.dispatched)
    requires NewTasks(s, i.before) && NewTasks(SubmitAll(s, i.before), i.during)
    ensures Agrees(Pass(s, i), log + Handled(s, i)) && LogIs(log + Handled(s, i), Pass(s, i).dispatched)
  {
    LogStep(s, i, log);
    DuringIsNew(s, i.before, i.during);
    PassInv(s, i);
    hide Pass, Handled, Inv, AgreesOn, Best, NewTasks;
    forall id ensures AgreesOn(Pass(s, i), log + Handled(s, i), id) {
      if s.queue + (s.inbox + i.before) == [] {
        IdleAgrees(s, i, log, id);
      } else {
        BusyAgrees(s, i, log, id);
      }
    }
  }

  lemma IdleAgrees(s: State, i: Input, log: seq<(nat, bool)>, id: nat)
    requires Inv(s) && Agrees(s, log) && LogIs(log, s.dispatched) && s.queue + (s.inbox + i.before) == []
    requires forall k :: 0 <= k < |i.during| ==> i.during[k].id !in s.submitted
    ensures AgreesOn(Pass(s, i), log + Handled(s, i), id)
  {
    var s' := Pass(s, i);
    assert log + Handled(s, i) == log && AgreesOn(s, log, id);
    PlacesAfterWaiting(s, i);
    hide Pass, Inv, Ids, AllRaised, LastReturned, Handled;
    if id in Ids(s'.inbox) || id in Ids(s'.queue) {
      assert id in Ids(s'.queue) + Ids(s'.inbox);
      NewIsUntried(s, log, i.during, id);
    }
  }

  lemma BusyAgrees(s: State, i: Input, log: seq<(nat, bool)>, id: nat)
    requires Inv(s) && Inv(Pass(s, i)) && Agrees(s, log) && LogIs(log, s.dispatched)
    requires s.queue + (s.inbox + i.before) != [] && NewTasks(s, i.before)
    requires forall k :: 0 <= k < |i.during| ==> i.during[k].id !in s.submitted
    ensures AgreesOn(Pass(s, i), log + Handled(s, i), id)
  {
    var q := s.queue + (s.inbox + i.before);
    InIds(q, q[Best(q)].id);
    assert Handled(s, i) == [(q[Best(q)].id, i.raises)];
    hide Pass, Inv, Best, AgreesOn, Agrees, NewTasks, Handled;
    WaitingRaised(s, i, log, q[Best(q)].id);
    if id == q[Best(q)].id { HandledAgrees(s, i, log); } else { OtherAgrees(s, i, log, id); }
  }

  /** Whatever waits, old or new, has only attempts that raised. */
  lemma WaitingRaised(s: State, i: Input, log: seq<(nat, bool)>, id: nat)
    requires Inv(s) && Agrees(s, log) && LogIs(log, s.dispatched) && NewTasks(s, i.before)
    requires id in Ids(s.queue + (s.inbox + i.before))
    ensures AllRaised(log, id)
  {
    hide Inv, Ids, AllRaised;
    IdsConcat(s.queue, s.inbox + i.before);
    IdsConcat(s.inbox, i.before);
    assert AgreesOn(s, log, id);
    if id !in Ids(s.queue) && id !in Ids(s.inbox) { NewIsUntried(s, log, i.before, id); }
  }

  lemma HandledAgrees(s: State, i: Input, log: seq<(nat, bool)>)
    requires Inv(Pass(s, i)) && s.queue + (s.inbox + i.before) != []
    requires AllRaised(log, (s.queue + (s.inbox + i.before))[Best(s.queue + (s.inbox + i.before))].id)
    ensures var q := s.queue + (s.inbox + i.before);
            AgreesOn(Pass(s, i), log + [(q[Best(q)].id, i.raises)], q[Best(q)].id)
  {
    var q, s' := s.queue + (s.inbox + i.before), Pass(s, i);
    var id := q[Best(q)].id;
    PlacesAfter(s, i);
    OncePerId(s', id);
    OneMoreAttempt(log, id, i.raises, id);
    hide Pass, Inv, Best, Ids, AllRaised, LastReturned;
    assert Ids(s'.inbox)[id] + Ids(s'.queue)[id] + Ids(s'.completed)[id] + Ids(s'.failed)[id] <= 1;
  }

  lemma OtherAgrees(s: State, i: Input, log: seq<(nat, bool)>, id: nat)
    requires Inv(s) && Agrees(s, log) && LogIs(log, s.dispatched) && NewTasks(s, i.before)
    requires forall k :: 0 <= k < |i.during| ==> i.during[k].id !in s.submitted
    requires s.queue + (s.inbox + i.before) != []
    requires id != (s.queue + (s.inbox + i.before))[Best(s.queue + (s.inbox + i.before))].id
    ensures var q := s.queue + (s.inbox + i.before);
            AgreesOn(Pass(s, i), log + [(q[Best(q)].id, i.raises)], id)
  {
    var q, s' := s.queue + (s.inbox + i.before), Pass(s, i);
    PlacesAfter(s, i);
    OneMoreAttempt(log, q[Best(q)].id, i.raises, id);
    assert AgreesOn(s, log, id);
    if id in Ids(s'.queue) {
      StillWaiting(s, i, id);
      WaitingRaised(s, i, log, id);
    }
    hide Pass, Inv, Best, Ids, AllRaised, LastReturned, Agrees, LogIs, NewTasks;
    if id in Ids(s'.inbox) { NewIsUntried(s, log, i.during, id); }
  }

  lemma StillWaiting(s: State, i: Input, id: nat)
    requires s.queue + (s.inbox + i.before) != [] && id in Ids(Pass(s, i).queue)
    ensures id in Ids(s.queue + (s.inbox + i.before))
  {
    var q := s.queue + (s.inbox + i.before);
    QueueAfter(s, i);
    hide Pass, Best, Ids;
    assert id in Ids(Pass(s, i).queue) + multiset{q[Best(q)].id};
    IdsConcat(s.queue, s.inbox + i.before);
    IdsConcat(s.inbox, i.before);
  }

  // ---- Any run -----------------------------------------------------------------------------------------

  lemma {:induction false} AgreesRun(inputs: seq<Input>)
    requires NewInputs(Start(), inputs)
    ensures Inv(Passes(Start(), inputs))
    ensures Agrees(Passes(Start(), inputs), Attempts(Start(), inputs))
    ensures LogIs(Attempts(Start(), inputs), Passes(Start(), inputs).dispatched)
  {
    StartInv();
    RunInv(Start(), inputs);
    if inputs != [] {
      var init := inputs[..|inputs| - 1];
      AgreesRun(init);
      AgreesStep(Passes(Start(), init), inputs[|inputs| - 1], Attempts(Start(), init));
    } else {
      IdsNone();
    }
  }

  /** After any run a task is among the completed exactly when its last attempt did not raise, and among the failed
      exactly when it has had all the attempts it is allowed and every one of them raised. */
  lemma OutcomesFollowHandler(inputs: seq<Input>, id: nat)
    requires NewInputs(Start(), inputs) && id in Passes(Start(), inputs).submitted
    ensures var s, log := Passes(Start(), inputs), Attempts(Start(), inputs);
            && LogIs(log, s.dispatched)
            && ((exists i :: 0 <= i < |s.completed| && s.completed[i].id == id) <==> LastReturned(log, id))
            && ((exists i :: 0 <= i < |s.failed| && s.failed[i].id == id) <==>
                  Count(s.dispatched, id) == Allowed(s.submitted[id]) && AllRaised(log, id))
  {
    var s, log := Passes(Start(), inputs), Attempts(Start(), inputs);
    AgreesRun(inputs);
    assert AgreesOn(s, log, id);
    InIds(s.completed, id);
    InIds(s.failed, id);
    WithinAllowance(s, id);
    if id in Ids(s.inbox) || id in Ids(s.queue) { StillAllowed(s, id); }
    if id in Ids(s.failed) { var i := IdsFind(s.failed, id); assert FailedOk(s, s.failed[i]); }
    hide Passes, Attempts, NewInputs, Inv, Ids, Count, Allowed, FailedOk;
    if LastReturned(log, id) { NotAllRaised(log, id); }
    assert id in Ids(s.inbox) || id in Ids(s.queue) || id in Ids(s.completed) || id in Ids(s.failed);
  }

  lemma NotAllRaised(log: seq<(nat, bool)>, id: nat)
    requires LastReturned(log, id)
    ensures !AllRaised(log, id)
  {
  }

  lemma InIds(q: seq<Task>, id: nat)
    ensures id in Ids(q) <==> exists i :: 0 <= i < |q| && q[i].id == id
  {
    if id in Ids(q) { var i := IdsFind(q, id); }
    if i :| 0 <= i < |q| && q[i].id == id { IdsHas(q, i); }
  }

  /** A waiting task has attempts left. */
  lemma StillAllowed(s: State, id: nat)
    requires Inv(s) && id in s.submitted && (id in Ids(s.inbox) || id in Ids(s.queue))
    ensures Count(s.dispatched, id) < Allowed(s.submitted[id])
  {
    if id in Ids(s.inbox) {
      var i := IdsFind(s.inbox, id);
      assert LiveOk(s, s.inbox[i]);
    } else {
      var i := IdsFind(s.queue, id);
      assert LiveOk(s, s.queue[i]);
    }
  }
}
