/** `_process_job` itself, with everybody else free to act before each of its operations. */
module FleetWorker {
  import opened Fleet
  import P = FleetPoll

  /** What `_execute_job` comes to; a timeout is an error. */
  datatype Execution = Result(value: string) | Error(message: string)

  predicate Touches(a: Step, msg: nat) {
    match a
    case Enter(m) => m == msg
    case Read(m) => m == msg
    case WriteRunning(m) => m == msg
    case Complete(m, _) => m == msg
    case Fail(m, _) => m == msg
    case WriteOutcome(m) => m == msg
    case Acknowledge(m) => m == msg
    case Die(m) => m == msg
    case _ => false
  }

  /** The steps of `turn` that can happen now and are not steps of the task `msg`. */
  function Others(s: State, turn: seq<Step>, msg: nat): (run: seq<Step>)
    ensures IsRun(s, run)
    decreases |turn|
  {
    if turn == [] then []
    else if Enabled(s, turn[0]) && !Touches(turn[0], msg) then
      var rest := Others(Next(s, turn[0]), turn[1..], msg);
      assert ([turn[0]] + rest)[1..] == rest;
      [turn[0]] + rest
    else Others(s, turn[1..], msg)
  }

  lemma StepLeavesTask(s: State, a: Step, msg: nat)
    requires Inv(s) && msg in s.tasks && Enabled(s, a) && !Touches(a, msg)
    ensures Inv(Next(s, a)) && msg in Next(s, a).tasks && Next(s, a).tasks[msg] == s.tasks[msg]
  {
    InvStep(s, a);
    assert TasksInv(s);
    hide Inv;
    OtherTaskStays(s, a, msg);
  }

  lemma OtherTaskStays(s: State, a: Step, msg: nat)
    requires TasksInv(s) && msg in s.tasks && Enabled(s, a) && !Touches(a, msg)
    ensures msg in Next(s, a).tasks && Next(s, a).tasks[msg] == s.tasks[msg]
  {
  }

  lemma {:induction false} OthersLeaveTask(s: State, turn: seq<Step>, msg: nat)
    requires Inv(s) && msg in s.tasks
    ensures var t := Final(s, Others(s, turn, msg));
            Inv(t) && msg in t.tasks && t.tasks[msg] == s.tasks[msg]
    decreases |turn|
  {
    hide Next, Enabled, Inv, Touches;
    if turn != [] {
      if Enabled(s, turn[0]) && !Touches(turn[0], msg) {
        StepLeavesTask(s, turn[0], msg);
        assert ([turn[0]] + Others(Next(s, turn[0]), turn[1..], msg))[1..] == Others(Next(s, turn[0]), turn[1..], msg);
        OthersLeaveTask(Next(s, turn[0]), turn[1..], msg);
      } else {
        OthersLeaveTask(s, turn[1..], msg);
      }
    }
  }

  /** The state once the others' turn is over. */
  function Met(s: State, turn: seq<Step>, msg: nat): State {
    Final(s, Others(s, turn, msg))
  }

  ghost predicate OtherRecordsStay(s: State, t: State, job: Job) {
    && s.limit == t.limit && s.group.log == t.group.log
    && forall other :: other != job && other in s.records ==> other in t.records && t.records[other] == s.records[other]
  }

  function Outcome(execution: Execution): JobRecord {
    match execution
    case Result(v) => JobRecord(Succeeded, v, "")
    case Error(e) => JobRecord(Failed, "", e)
  }

  class Worker {
    var world: State
    ghost const origin: State
    ghost var history: seq<Step>

    ghost predicate Valid()
      reads this
    {
      Inv(origin) && IsRun(origin, history) && Final(origin, history) == world && Inv(world)
    }

    constructor (world: State)
      requires Inv(world)
      ensures Valid() && this.world == world
    {
      this.world, this.origin, this.history := world, world, [];
    }

    method Let(turn: seq<Step>, msg: nat)
      requires Valid() && msg in world.tasks
      modifies this`world, this`history
      ensures Valid() && msg in world.tasks && world.tasks[msg] == old(world).tasks[msg]
      ensures world == Met(old(world), turn, msg)
      ensures turn == [] ==> world == old(world)
    {
      OthersLeaveTask(world, turn, msg);
      ghost var run := Others(world, turn, msg);
      P.RunConcat(origin, history, run);
      world := Final(world, Others(world, turn, msg));
      history := history + run;
    }

    method Do(a: Step)
      requires Valid() && Enabled(world, a)
      modifies this`world, this`history
      ensures Valid() && world == Next(old(world), a)
    {
      InvStep(world, a);
      assert [a][1..] == [] && IsRun(Next(world, a), []);
      P.RunConcat(origin, history, [a]);
      world := Next(world, a);
      history := history + [a];
    }

    /** Enters if and only if, once the others' turn is over, fewer than `limit` tasks of its process hold the
        semaphore.  Then the job's record ends done or failed as the execution did, and the message is acknowledged. */
    method ProcessJob(msg: nat, execution: Execution, turns: nat -> seq<Step>) returns (entered: bool)
      requires Valid() && msg in world.tasks && world.tasks[msg].stage.Waiting?
      modifies this`world, this`history
      ensures Valid() && msg in world.tasks && world.tasks[msg].job == old(world).tasks[msg].job
      ensures var t := Met(old(world), turns(0), msg);
              msg in t.tasks && (entered <==> |Holders(t, t.tasks[msg].process)| < t.limit)
      ensures !entered ==> world.tasks[msg].stage.Waiting?
      ensures (forall k :: turns(k) == []) ==> OtherRecordsStay(old(world), world, old(world).tasks[msg].job)
      ensures entered ==>
                && world.tasks[msg].stage.Gone? && msg in world.group.acked && world.tasks[msg].job in world.records
                && world.records[world.tasks[msg].job] == Outcome(execution)
    {
      hide Next, Enabled, IsRun, Final, Inv, Met, Holders;
      Let(turns(0), msg);
      var free := TryEnter(msg);
      if !free {
        return false;
      }
      Let(turns(1), msg);
      Load(msg);
      Let(turns(2), msg);
      Start(msg);
      Let(turns(3), msg);
      Settle(msg, execution);
      Let(turns(4), msg);
      Record(msg);
      return true;
    }

    method TryEnter(msg: nat) returns (entered: bool)
      requires Valid() && msg in world.tasks && world.tasks[msg].stage.Waiting?
      modifies this`world, this`history
      ensures Valid() && msg in world.tasks && world.tasks[msg].job == old(world).tasks[msg].job
      ensures world.tasks[msg].stage == if entered then Entered else Waiting
      ensures entered <==> |Holders(old(world), old(world).tasks[msg].process)| < old(world).limit
      ensures OtherRecordsStay(old(world), world, old(world).tasks[msg].job)
    {
      entered := |Holders(world, world.tasks[msg].process)| < world.limit;
      if entered {
        Do(Enter(msg));
      }
    }

    method Load(msg: nat)
      requires Valid() && msg in world.tasks && world.tasks[msg].stage.Entered?
      modifies this`world, this`history
      ensures Valid() && msg in world.tasks && world.tasks[msg].job == old(world).tasks[msg].job
      ensures world.tasks[msg].stage == Loaded(JobRecord(Running, "", ""))
      ensures OtherRecordsStay(old(world), world, old(world).tasks[msg].job)
    {
      assert world.tasks[msg].job in world.records && StageFits(Entered, world.records[world.tasks[msg].job]);
      Do(Read(msg));
    }

    method Start(msg: nat)
      requires Valid() && msg in world.tasks && world.tasks[msg].stage == Loaded(JobRecord(Running, "", ""))
      modifies this`world, this`history
      ensures Valid() && msg in world.tasks && world.tasks[msg].job == old(world).tasks[msg].job
      ensures world.tasks[msg].stage == Executing(JobRecord(Running, "", ""))
      ensures OtherRecordsStay(old(world), world, old(world).tasks[msg].job)
    {
      Do(WriteRunning(msg));
    }

    method Settle(msg: nat, execution: Execution)
      requires Valid() && msg in world.tasks && world.tasks[msg].stage == Executing(JobRecord(Running, "", ""))
      modifies this`world, this`history
      ensures Valid() && msg in world.tasks && world.tasks[msg].job == old(world).tasks[msg].job
      ensures world.tasks[msg].stage == Finished(Outcome(execution))
      ensures OtherRecordsStay(old(world), world, old(world).tasks[msg].job)
    {
      if execution.Result? {
        Do(Complete(msg, execution.value));
      } else {
        Do(Fail(msg, execution.message));
      }
    }

    /** The last two operations: the outcome is written, then the message acknowledged. */
    method Record(msg: nat)
      requires Valid() && msg in world.tasks && world.tasks[msg].stage.Finished?
      modifies this`world, this`history
      ensures Valid() && msg in world.tasks && world.tasks[msg].job == old(world).tasks[msg].job
      ensures world.tasks[msg].stage.Gone? && msg in world.group.acked && world.tasks[msg].job in world.records
      ensures world.records[world.tasks[msg].job] == old(world).tasks[msg].stage.data
      ensures OtherRecordsStay(old(world), world, old(world).tasks[msg].job)
    {
      WriteResult(msg);
      AcknowledgeJob(msg);
    }

    method WriteResult(msg: nat)
      requires Valid() && msg in world.tasks && world.tasks[msg].stage.Finished?
      modifies this`world, this`history
      ensures Valid() && msg in world.tasks && world.tasks[msg].job == old(world).tasks[msg].job
      ensures world.tasks[msg].stage.Settled? && world.tasks[msg].job in world.records
      ensures world.records[world.tasks[msg].job] == old(world).tasks[msg].stage.data
      ensures OtherRecordsStay(old(world), world, old(world).tasks[msg].job)
    {
      hide Valid;
      Do(WriteOutcome(msg));
    }

    method AcknowledgeJob(msg: nat)
      requires Valid() && msg in world.tasks && world.tasks[msg].stage.Settled?
      modifies this`world, this`history
      ensures Valid() && msg in world.tasks && world.tasks[msg].job == old(world).tasks[msg].job
      ensures world.tasks[msg].stage.Gone? && msg in world.group.acked
      ensures world.records == old(world).records && world.limit == old(world).limit
      ensures world.group.log == old(world).group.log
    {
      Delivered(world, msg);
      hide Valid;
      Do(Acknowledge(msg));
    }
  }

  lemma Delivered(s: State, msg: nat)
    requires Inv(s) && msg in s.tasks && !s.tasks[msg].stage.Gone?
    ensures msg in s.group.pending
  {
    assert msg < s.group.delivered;
  }

  /** From the submission of a job to its end, when nobody else acts, every earlier message has been delivered and the
      process has a place free: the job is logged and claimed, its record ends as the execution came out, its message
      is acknowledged, and no other record changes. */
  method OneJob(worker: Worker, job: Job, process: Process, execution: Execution) returns (msg: nat)
    requires worker.Valid() && job !in worker.world.records
    requires worker.world.group.delivered == |worker.world.group.log|
    requires |Holders(worker.world, process)| < worker.world.limit
    modifies worker`world, worker`history
    ensures worker.Valid() && worker.world.group.log == old(worker.world).group.log + [job]
    ensures msg == |old(worker.world).group.log| && msg in worker.world.group.acked
    ensures job in worker.world.records && worker.world.records[job] == Outcome(execution)
    ensures forall other :: other in old(worker.world).records ==>
              other in worker.world.records && worker.world.records[other] == old(worker.world).records[other]
  {
    hide *;
    msg := Announce(worker, job, process);
    ghost var announced := worker.world;
    ProcessUndisturbed(worker, msg, execution);
    StayGives(announced, worker.world, job);
  }

  method ProcessUndisturbed(worker: Worker, msg: nat, execution: Execution)
    requires worker.Valid() && msg in worker.world.tasks && worker.world.tasks[msg].stage.Waiting?
    requires |Holders(worker.world, worker.world.tasks[msg].process)| < worker.world.limit
    modifies worker`world, worker`history
    ensures worker.Valid() && msg in worker.world.group.acked
    ensures var job := old(worker.world).tasks[msg].job;
            && job in worker.world.records && worker.world.records[job] == Outcome(execution)
            && OtherRecordsStay(old(worker.world), worker.world, job)
  {
    var nobody := (k: nat) => [];
    MetQuietly(worker.world, msg);
    hide *;
    assert nobody(0) == [];
    var entered := worker.ProcessJob(msg, execution, nobody);
  }

  lemma StayGives(s: State, t: State, job: Job)
    requires OtherRecordsStay(s, t, job)
    ensures s.group.log == t.group.log
    ensures forall other :: other != job && other in s.records ==>
              other in t.records && t.records[other] == s.records[other]
  {
  }

  lemma MetQuietly(s: State, msg: nat)
    ensures Met(s, [], msg) == s
  {
  }

  lemma WaitingHoldsNothing(s: State, t: State, m: nat, task: Task, p: Process)
    requires m !in s.tasks && t.tasks == s.tasks[m := task] && task.stage.Waiting?
    ensures Holders(t, p) == Holders(s, p)
  {
  }

  lemma AnnounceSteps(s: State, job: Job, process: Process)
    requires Inv(s) && Enabled(s, Submit(job)) && s.group.delivered == |s.group.log|
    ensures var s1 := Next(s, Submit(job));
            Enabled(s1, Publish(job, true)) && var s2 := Next(s1, Publish(job, true));
            Enabled(s2, Claim(process)) && var t := Next(s2, Claim(process));
            && s2.group.delivered == |s.group.log| && t.group.log == s.group.log + [job] && t.limit == s.limit
            && t.records == s.records[job := JobRecord(Pending, "", "")]
            && |s.group.log| !in s.tasks && t.tasks == s.tasks[|s.group.log| := Task(process, job, Waiting)]
  {
  }

  /** The job is recorded as pending, published and claimed. */
  method Announce(worker: Worker, job: Job, process: Process) returns (msg: nat)
    requires worker.Valid() && job !in worker.world.records
    requires worker.world.group.delivered == |worker.world.group.log|
    modifies worker`world, worker`history
    ensures worker.Valid() && worker.world.group.log == old(worker.world).group.log + [job]
    ensures msg == |old(worker.world).group.log| && msg in worker.world.tasks
    ensures worker.world.tasks[msg] == Task(process, job, Waiting)
    ensures Holders(worker.world, process) == Holders(old(worker.world), process)
    ensures worker.world.limit == old(worker.world).limit
    ensures worker.world.records == old(worker.world).records[job := JobRecord(Pending, "", "")]
  {
    ghost var s := worker.world;
    AnnounceSteps(s, job, process);
    hide Inv, IsRun, Final, Next, Holders;
    worker.Do(Submit(job));
    worker.Do(Publish(job, true));
    msg := worker.world.group.delivered;
    worker.Do(Claim(process));
    WaitingHoldsNothing(s, worker.world, msg, Task(process, job, Waiting), process);
  }
}
