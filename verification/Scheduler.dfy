/** `TaskScheduler`: the inbox, the priority queue, dispatch and bounded retry. */
module Scheduler {
  import opened Basics
  import Heap

  datatype Task = Task(id: nat, priority: int, retryCount: int, maxRetries: int)

  type Entry = Heap.Entry<Task>

  // ---- The simple queue: best first, first come first served among equals -----------------------------

  /** The place of the first task of greatest priority in a list kept in order of arrival. */
  function Best(q: seq<Task>): (b: nat)
    requires q != []
    ensures b < |q|
  {
    if |q| == 1 then 0
    else
      var b := Best(q[..|q| - 1]);
      if q[|q| - 1].priority > q[b].priority then |q| - 1 else b
  }

  lemma {:induction false} BestIsBest(q: seq<Task>)
    requires q != []
    ensures forall i :: 0 <= i < |q| ==> q[i].priority <= q[Best(q)].priority
    ensures forall i :: 0 <= i < Best(q) ==> q[i].priority < q[Best(q)].priority
  {
    if |q| > 1 {
      BestIsBest(q[..|q| - 1]);
    }
  }

  lemma BestIsUnique(q: seq<Task>, k: nat)
    requires k < |q|
    requires forall i :: 0 <= i < |q| ==> q[i].priority <= q[k].priority
    requires forall i :: 0 <= i < k ==> q[i].priority < q[k].priority
    ensures Best(q) == k
  {
  }

  function Without<T>(q: seq<T>, i: nat): seq<T>
    requires i < |q|
  {
    q[..i] + q[i + 1..]
  }

  function Items(es: seq<Entry>): (q: seq<Task>)
    ensures |q| == |es| && forall i :: 0 <= i < |q| ==> q[i] == es[i].item
  {
    seq(|es|, i requires 0 <= i < |es| => es[i].item)
  }

  /** Entries in order of arrival: numbered upwards, each with its task's priority. */
  ghost predicate Arrived(es: seq<Entry>, counter: nat) {
    && (forall i :: 0 <= i < |es| ==> es[i].number < counter && es[i].priority == es[i].item.priority)
    && (forall i, j :: 0 <= i < j < |es| ==> es[i].number < es[j].number)
  }

  /** The least entry is the simple queue's choice. */
  lemma LeastIsBest(es: seq<Entry>, counter: nat, k: nat)
    requires Arrived(es, counter) && k < |es|
    requires forall i :: 0 <= i < |es| ==> Heap.AtMost(es[k], es[i])
    ensures Best(Items(es)) == k
  {
    forall i | 0 <= i < |es|
      ensures es[i].item.priority <= es[k].item.priority
      ensures i < k ==> es[i].item.priority < es[k].item.priority
    {
      assert Heap.AtMost(es[k], es[i]);
    }
    BestIsUnique(Items(es), k);
  }

  // ---- Scheduling as steps on the simple queue ------------------------------------------------------------

  datatype State = State(
    inbox: seq<Task>, queue: seq<Task>, completed: seq<Task>, failed: seq<Task>,
    dispatched: seq<nat>,            // ids in the order in which they were handed to the handler
    submitted: map<nat, Task>)

  /** What happens around one pass of the loop: tasks put into the inbox before the drain and while the
      handler runs, and whether the handler raises. */
  datatype Input = Input(before: seq<Task>, during: seq<Task>, raises: bool)

  function SubmitAll(s: State, ts: seq<Task>): State
    decreases |ts|
  {
    if ts == [] then s
    else SubmitAll(s.(inbox := s.inbox + [ts[0]], submitted := s.submitted[ts[0].id := ts[0]]), ts[1..])
  }

  function Drain(s: State): State {
    s.(queue := s.queue + s.inbox, inbox := [])
  }

  function Take(s: State): State
    requires s.queue != []
  {
    s.(queue := Without(s.queue, Best(s.queue)), dispatched := s.dispatched + [s.queue[Best(s.queue)].id])
  }

  /** After the handler: completed, back into the inbox with one more retry, or failed. */
  function Settle(s: State, t: Task, raises: bool): State {
    if !raises then s.(completed := s.completed + [t])
    else
      var u := t.(retryCount := t.retryCount + 1);
      if u.retryCount <= u.maxRetries then s.(inbox := s.inbox + [u]) else s.(failed := s.failed + [u])
  }

  /** With nothing to dispatch the loop waits, and moves the first arrival to the queue. */
  function Wait(s: State): State {
    if s.inbox == [] then s else s.(queue := s.queue + [s.inbox[0]], inbox := s.inbox[1..])
  }

  function Pass(s: State, i: Input): State {
    var d := Drain(SubmitAll(s, i.before));
    if d.queue == [] then Wait(SubmitAll(d, i.during))
    else Settle(SubmitAll(Take(d), i.during), d.queue[Best(d.queue)], i.raises)
  }

  function Passes(s: State, inputs: seq<Input>): State {
    if inputs == [] then s else Pass(Passes(s, inputs[..|inputs| - 1]), inputs[|inputs| - 1])
  }

  /** A pass in terms of the tasks at hand. */
  lemma PassShape(s: State, i: Input)
    ensures var q := s.queue + (s.inbox + i.before);
            var all := Pass(s, i).submitted;
            && (q == [] && i.during == [] ==> Pass(s, i) == s.(queue := [], inbox := [], submitted := all))
            && (q == [] && i.during != [] ==>
                  Pass(s, i) == s.(queue := q + [i.during[0]], inbox := i.during[1..], submitted := all))
            && (q != [] ==>
                  Pass(s, i) == Settle(State([] + i.during, Without(q, Best(q)), s.completed, s.failed,
                                             s.dispatched + [q[Best(q)].id], all), q[Best(q)], i.raises))
  {
    SubmitShape(s, i.before);
    var d := Drain(SubmitAll(s, i.before));
    if d.queue == [] {
      SubmitShape(d, i.during);
      assert d.inbox + i.during == i.during;
    } else {
      SubmitShape(Take(d), i.during);
    }
  }

  /** Whether a pass that starts in `s` ends with neither a task queued nor one in the inbox: at most one task was
      waiting, none arrived meanwhile, and the one dispatched did not come back. */
  predicate LeavesNothing(s: State, i: Input) {
    var q := s.queue + (s.inbox + i.before);
    i.during == [] && |q| <= 1 && (|q| == 1 && i.raises ==> q[0].retryCount >= q[0].maxRetries)
  }

  lemma LeavesNothingExactly(s: State, i: Input)
    ensures Pass(s, i).queue == [] && Pass(s, i).inbox == [] <==> LeavesNothing(s, i)
  {
    PassShape(s, i);
    var q := s.queue + (s.inbox + i.before);
    if q != [] { assert |Without(q, Best(q))| == |q| - 1; }
  }

  // ---- The scheduler itself ---------------------------------------------------------------------------------

  class TaskScheduler {
    var inbox: seq<Task>
    var heap: seq<Entry>
    var counter: nat
    var running: bool
    ghost var arrived: seq<Entry>      // the heap's entries in order of arrival
    ghost var completed: seq<Task>     // tasks marked COMPLETED
    ghost var failed: seq<Task>        // tasks marked FAILED
    ghost var dispatched: seq<nat>     // ids handed to the handler

    ghost predicate Valid()
      reads `heap, `counter, `arrived
    {
      Heap.IsHeap(heap) && multiset(heap) == multiset(arrived) && Arrived(arrived, counter)
    }

    /** The heap's contents as the simple queue. */
    ghost function Queue(): seq<Task>
      reads `arrived
    {
      Items(arrived)
    }

    /** The scheduler is in the state `s` of the step model. */
    ghost predicate Is(s: State)
      reads `arrived, `inbox, `completed, `failed, `dispatched
    {
      && Queue() == s.queue && inbox == s.inbox
      && completed == s.completed && failed == s.failed && dispatched == s.dispatched
    }

    constructor ()
      ensures Valid() && Is(State([], [], [], [], [], map[])) && !running
    {
      inbox, heap, counter, running, arrived := [], [], 0, false, [];
      completed, failed, dispatched := [], [], [];
    }

    method AddTask(item: Task)
      requires Valid()
      modifies this`heap, this`counter, this`arrived
      ensures Valid() && Queue() == old(Queue()) + [item]
    {
      var e := Heap.Entry(item.priority, counter, item);
      heap := Heap.Push(heap, e);
      arrived := arrived + [e];
      counter := counter + 1;
    }

    /** The task of greatest priority and, among equals, the one added first. */
    method GetNextTask() returns (next: Option<Task>)
      requires Valid()
      modifies this`heap, this`arrived
      ensures Valid()
      ensures old(Queue()) == [] ==> next.None? && Queue() == []
      ensures old(Queue()) != [] ==>
                && next == Some(old(Queue())[Best(old(Queue()))])
                && Queue() == Without(old(Queue()), Best(old(Queue())))
    {
      if heap == [] {
        assert |multiset(heap)| == |multiset(arrived)|;
        return None;
      }
      assert heap[0] in multiset(arrived);
      ghost var before := heap;
      var rest, least := Heap.Pop(heap);
      heap := rest;
      ghost var k := TakeLeast(before, arrived, counter, rest, least);
      assert least == arrived[k];
      arrived := Without(arrived, k);
      next := Some(least.item);
    }

    method DrainInbox()
      requires Valid()
      modifies this`inbox, this`heap, this`counter, this`arrived
      ensures Valid() && inbox == [] && Queue() == old(Queue()) + old(inbox)
    {
      ghost var q := Queue();
      ghost var all := inbox;
      ghost var i := 0;
      while inbox != []
        invariant Valid() && i <= |all| && inbox == all[i..] && Queue() == q + all[..i]
        decreases |inbox|
      {
        var item := inbox[0];
        inbox := inbox[1..];
        AddTask(item);
        i := i + 1;
      }
    }

    method Stop()
      modifies this`running
      ensures !running
    {
      running := false;
    }

    /** The handler runs, tasks arrive meanwhile, and a task that raised goes back to the inbox while it may. */
    method Dispatch(task: Task, during: seq<Task>, raises: bool, ghost all: map<nat, Task>)
      modifies `inbox, `completed, `failed, `dispatched
      ensures Is(Settle(State(old(inbox) + during, old(Queue()), old(completed), old(failed),
                              old(dispatched) + [task.id], all),
                        task, raises))
    {
      dispatched := dispatched + [task.id];
      inbox := inbox + during;
      if !raises {
        completed := completed + [task];
      } else {
        var again := task.(retryCount := task.retryCount + 1);
        if again.retryCount <= again.maxRetries {
          inbox := inbox + [again];
        } else {
          failed := failed + [again];
        }
      }
    }

    method Refill(before: seq<Task>)
      requires Valid()
      modifies this`inbox, this`heap, this`counter, this`arrived
      ensures Valid() && inbox == [] && Queue() == old(Queue()) + (old(inbox) + before)
    {
      inbox := inbox + before;
      DrainInbox();
    }

    method WaitForInbox(during: seq<Task>)
      requires Valid() && inbox == []
      modifies this`inbox, this`heap, this`counter, this`arrived
      ensures Valid()
      ensures during == [] ==> Queue() == old(Queue()) && inbox == []
      ensures during != [] ==> Queue() == old(Queue()) + [during[0]] && inbox == during[1..]
    {
      if during != [] {
        AddTask(during[0]);
        inbox := during[1..];
      }
    }

    /** One pass of the loop in `run`; `before` and `during` arrive from outside, the latter while the
        handler, or the wait for the inbox, is under way. */
    method PassOnce(i: Input, ghost s: State)
      requires Valid() && Is(s)
      modifies this
      ensures Valid() && Is(Pass(s, i)) && running == old(running)
    {
      hide Valid, Pass, Best, Queue, Without, Settle;
      PassShape(s, i);
      Refill(i.before);
      var task := GetNextTask();
      if task.None? {
        WaitForInbox(i.during);
      } else {
        Dispatch(task.value, i.during, i.raises, Pass(s, i).submitted);
      }
    }

    /** `run`: passes go on while the scheduler is running; `stopAt(k)` tells whether stop is called during
        pass k.  Whatever is waiting then stays where it is: a stopped run leaves the heap and the inbox empty
        exactly when the pass during which stop was called left nothing. */
    method Run(inputs: seq<Input>, stopAt: nat -> bool, ghost s: State) returns (passes: nat)
      requires Valid() && Is(s)
      modifies this
      ensures Valid() && passes <= |inputs| && Is(Passes(s, inputs[..passes]))
      ensures forall k :: 0 <= k < passes - 1 ==> !stopAt(k)
      ensures passes < |inputs| ==> !running
      ensures !running ==> passes > 0 && stopAt(passes - 1)
      ensures passes > 0 ==>
                (heap == [] && inbox == [] <==> LeavesNothing(Passes(s, inputs[..passes - 1]), inputs[passes - 1]))
    {
      hide Valid, Queue, Pass, Is;
      running := true;
      passes := 0;
      while running && passes < |inputs|
        invariant Valid() && passes <= |inputs| && Is(Passes(s, inputs[..passes]))
        invariant running ==> forall k :: 0 <= k < passes ==> !stopAt(k)
        invariant !running ==> passes > 0 && stopAt(passes - 1) && forall k :: 0 <= k < passes - 1 ==> !stopAt(k)
        decreases |inputs| - passes
      {
        PassesSnoc(s, inputs, passes);
        PassOnce(inputs[passes], Passes(s, inputs[..passes]));
        if stopAt(passes) {
          Stop();
        }
        passes := passes + 1;
      }
      if passes > 0 {
        PassesSnoc(s, inputs, passes - 1);
        LeavesNothingExactly(Passes(s, inputs[..passes - 1]), inputs[passes - 1]);
        WaitingIn(Passes(s, inputs[..passes]));
      }
    }

    lemma WaitingIn(s: State)
      requires Valid() && Is(s)
      ensures heap == [] <==> s.queue == []
      ensures inbox == [] <==> s.inbox == []
    {
      assert |multiset(heap)| == |multiset(arrived)|;
    }
  }

  lemma PassesSnoc(s: State, inputs: seq<Input>, k: nat)
    requires k < |inputs|
    ensures Passes(s, inputs[..k + 1]) == Pass(Passes(s, inputs[..k]), inputs[k])
  {
    assert inputs[..k + 1][..k] == inputs[..k];
  }

  /** Of two waiting tasks the second is still queued after one pass. */
  lemma SecondStaysQueued(s: State, t: Task, u: Task, raises: bool)
    requires s.inbox == [] && s.queue == [] && t.priority >= u.priority
    ensures Passes(s, [Input([t, u], [], raises)]).queue == [u]
  {
    hide Pass, Best, Settle;
    var i := Input([t, u], [], raises);
    PassesSnoc(s, [i], 0);
    assert [i][..0] == [] && [i][..1] == [i];
    PassShape(s, i);
    assert s.queue + (s.inbox + [t, u]) == [t, u];
    BestIsUnique([t, u], 0);
    assert Without([t, u], 0) == [u];
    SettleQueue(State([] + [], [u], s.completed, s.failed, s.dispatched + [t.id], Pass(s, i).submitted), t, raises);
  }

  /** Stopping is not draining: two tasks wait, stop is called while the first is dispatched, and the run ends,
      whatever else would have arrived, with the second in the heap. */
  method StopLeavesQueued(t: Task, u: Task, raises: bool, later: seq<Input>) returns (scheduler: TaskScheduler)
    requires t.priority >= u.priority && later != []
    ensures fresh(scheduler) && scheduler.Valid() && !scheduler.running
    ensures scheduler.Queue() == [u] && scheduler.heap != []
  {
    hide Passes, Pass, Best, LeavesNothing;
    scheduler := new TaskScheduler();
    var first := Input([t, u], [], raises);
    var inputs := [first] + later;
    ghost var s := State([], [], [], [], [], map[]);
    var atOnce := (k: nat) => k == 0;
    var passes := scheduler.Run(inputs, atOnce, s);
    assert atOnce(0) && passes == 1;
    assert inputs[..1] == [first];
    SecondStaysQueued(s, t, u, raises);
    scheduler.WaitingIn(Passes(s, [first]));
  }

  lemma SettleQueue(s: State, t: Task, raises: bool)
    ensures Settle(s, t, raises).queue == s.queue
  {
  }

  lemma WithoutSplits<T>(q: seq<T>, k: nat)
    requires k < |q|
    ensures multiset(q) == multiset(Without(q, k)) + multiset{q[k]}
  {
    assert q == q[..k] + [q[k]] + q[k + 1..];
  }

  lemma WithoutArrived(es: seq<Entry>, counter: nat, k: nat)
    requires Arrived(es, counter) && k < |es|
    ensures Arrived(Without(es, k), counter) && Items(Without(es, k)) == Without(Items(es), k)
  {
  }

  lemma TakeLeast(h: seq<Entry>, es: seq<Entry>, counter: nat, rest: seq<Entry>, least: Entry) returns (k: nat)
    requires multiset(h) == multiset(es) && Arrived(es, counter) && multiset(h) == multiset(rest) + multiset{least}
    requires forall e :: e in h ==> Heap.AtMost(least, e)
    ensures k < |es| && es[k] == least && k == Best(Items(es))
    ensures multiset(rest) == multiset(Without(es, k)) && Arrived(Without(es, k), counter)
    ensures Items(Without(es, k)) == Without(Items(es), k)
  {
    assert least in multiset(es);
    k :| 0 <= k < |es| && es[k] == least;
    forall i | 0 <= i < |es| ensures Heap.AtMost(es[k], es[i]) {
      assert es[i] in multiset(es);
      assert es[i] in multiset(h);
    }
    LeastIsBest(es, counter, k);
    WithoutSplits(es, k);
    assert multiset(rest) == multiset(h) - multiset{least};
    assert multiset(Without(es, k)) == multiset(es) - multiset{least};
    WithoutArrived(es, counter, k);
  }

  lemma {:induction false} SubmitShape(s: State, ts: seq<Task>)
    ensures var s' := SubmitAll(s, ts);
            s' == s.(inbox := s.inbox + ts, submitted := s'.submitted)
    decreases |ts|
  {
    if ts == [] {
      assert s.inbox + ts == s.inbox;
    } else {
      SubmitShape(s.(inbox := s.inbox + [ts[0]], submitted := s.submitted[ts[0].id := ts[0]]), ts[1..]);
      assert s.inbox + [ts[0]] + ts[1..] == s.inbox + ts;
    }
  }
}
