/** The fleet: jobs submitted to a stream, claimed by the worker loops of any number of gateway
    processes, run under each process's semaphore, and reported through records in Redis.

    Every Redis command and every change of local state is one step, and steps of all parties interleave.
    A task may die between any two of its steps, as it does when a Redis call raises. */
module Fleet {
  import opened Basics
  import G = StreamGroup

  type Job = string
  type Process = nat

  datatype Status = Pending | Running | Succeeded | Failed

  datatype JobRecord = JobRecord(status: Status, result: string, error: string)

  /** Where `_process_job` stands.  From Entered to Settled it holds its process's semaphore. */
  datatype Stage =
    | Waiting                      // created, not yet past the semaphore
    | Entered                      // about to read the record
    | Missing                      // no record: about to acknowledge and return
    | Loaded(data: JobRecord)           // record read; about to write it back as running
    | Executing(data: JobRecord)        // written; waiting for the job's result
    | Finished(data: JobRecord)         // outcome known; about to write it
    | Settled                      // outcome written; about to acknowledge
    | Gone                         // acknowledged and returned
    | Dead                         // ended by an exception

  datatype Task = Task(process: Process, job: Job, stage: Stage)

  /** Tasks are named by the message they were created for. */
  datatype State = State(
    limit: nat,
    records: map<Job, JobRecord>,
    unpublished: set<Job>,          // record written, publishing not yet tried
    group: G.Group<Job>,
    tasks: map<nat, Task>,
    batches: map<string, seq<Job>>)

  datatype Step =
    | Submit(job: Job)                                // _write_job in _submit_one
    | Publish(job: Job, published: bool)              // xadd; an exception is only logged
    | StoreBatch(batch: string, jobs: seq<Job>)
    | Claim(process: Process)
    | Enter(msg: nat)
    | Read(msg: nat)
    | WriteRunning(msg: nat)
    | Complete(msg: nat, result: string)
    | Fail(msg: nat, error: string)
    | WriteOutcome(msg: nat)
    | Acknowledge(msg: nat)
    | Die(msg: nat)

  predicate InSemaphore(s: Stage) {
    !s.Waiting? && !s.Gone? && !s.Dead?
  }

  function Holders(s: State, p: Process): set<nat> {
    set m | m in s.tasks && s.tasks[m].process == p && InSemaphore(s.tasks[m].stage)
  }

  function Init(limit: nat): State {
    State(limit, map[], {}, G.Create(), map[], map[])
  }

  predicate Enabled(s: State, a: Step) {
    match a
    case Submit(job) => job !in s.records
    case Publish(job, _) => job in s.unpublished
    case StoreBatch(batch, jobs) => batch !in s.batches && forall j :: j in jobs ==> j in s.records
    case Claim(_) => s.group.delivered < |s.group.log|
    case Enter(m) => m in s.tasks && s.tasks[m].stage.Waiting? && |Holders(s, s.tasks[m].process)| < s.limit
    case Read(m) => m in s.tasks && s.tasks[m].stage.Entered?
    case WriteRunning(m) => m in s.tasks && s.tasks[m].stage.Loaded?
    case Complete(m, _) => m in s.tasks && s.tasks[m].stage.Executing?
    case Fail(m, _) => m in s.tasks && s.tasks[m].stage.Executing?
    case WriteOutcome(m) => m in s.tasks && s.tasks[m].stage.Finished?
    case Acknowledge(m) => m in s.tasks && (s.tasks[m].stage.Settled? || s.tasks[m].stage.Missing?)
    case Die(m) => m in s.tasks && !s.tasks[m].stage.Gone?
  }

  function Move(s: State, m: nat, stage: Stage): State
    requires m in s.tasks
  {
    s.(tasks := s.tasks[m := s.tasks[m].(stage := stage)])
  }

  function Write(s: State, job: Job, data: JobRecord): State {
    s.(records := s.records[job := data])
  }

  function Next(s: State, a: Step): State
    requires Enabled(s, a)
  {
    match a
    case Submit(job) => Write(s, job, JobRecord(Pending, "", "")).(unpublished := s.unpublished + {job})
    case Publish(job, published) =>
      var t := s.(unpublished := s.unpublished - {job});
      if published then t.(group := G.Apply(s.group, G.Publish(job))) else t
    case StoreBatch(batch, jobs) => s.(batches := s.batches[batch := jobs])
    case Claim(p) =>
      var m := s.group.delivered;
      s.(group := G.Apply(s.group, G.Claim("worker-0")), tasks := s.tasks[m := Task(p, s.group.log[m], Waiting)])
    case Enter(m) => Move(s, m, Entered)
    case Read(m) =>
      var job := s.tasks[m].job;
      if job in s.records then Move(s, m, Loaded(s.records[job].(status := Running))) else Move(s, m, Missing)
    case WriteRunning(m) => Write(Move(s, m, Executing(s.tasks[m].stage.data)), s.tasks[m].job, s.tasks[m].stage.data)
    case Complete(m, result) => Move(s, m, Finished(s.tasks[m].stage.data.(status := Succeeded, result := result)))
    case Fail(m, error) => Move(s, m, Finished(s.tasks[m].stage.data.(status := Failed, error := error)))
    case WriteOutcome(m) => Write(Move(s, m, Settled), s.tasks[m].job, s.tasks[m].stage.data)
    case Acknowledge(m) => Move(s.(group := G.Apply(s.group, G.Ack(m))), m, Gone)
    case Die(m) => Move(s, m, Dead)
  }

  predicate IsRun(s: State, run: seq<Step>)
    decreases |run|
  {
    run == [] || (Enabled(s, run[0]) && IsRun(Next(s, run[0]), run[1..]))
  }

  function Final(s: State, run: seq<Step>): State
    requires IsRun(s, run)
    decreases |run|
  {
    if run == [] then s else Final(Next(s, run[0]), run[1..])
  }

  predicate Terminal(data: JobRecord) {
    data.status.Succeeded? || data.status.Failed?
  }

  function Rank(st: Status): nat {
    match st
    case Pending => 0
    case Running => 1
    case _ => 2
  }

  // ---- Invariants --------------------------------------------------------------------------------------

  /** The published jobs are distinct, recorded, and no longer waiting to be published. */
  ghost predicate LogInv(s: State) {
    && (forall i :: 0 <= i < |s.group.log| ==> s.group.log[i] in s.records && s.group.log[i] !in s.unpublished)
    && (forall i, j :: 0 <= i < j < |s.group.log| ==> s.group.log[i] != s.group.log[j])
    && (forall job :: job in s.unpublished ==> job in s.records)
  }

  /** There is one task for each delivered message, for that message's job. */
  ghost predicate TasksInv(s: State) {
    && s.group.delivered <= |s.group.log|
    && (forall m: nat :: m in s.tasks <==> m < s.group.delivered)
    && (forall m :: m in s.tasks ==> s.tasks[m].job == s.group.log[m])
  }

  /** What a task's stage says about its job's record. */
  predicate StageFits(stage: Stage, data: JobRecord) {
    match stage
    case Waiting => data == JobRecord(Pending, "", "")
    case Entered => data == JobRecord(Pending, "", "")
    case Missing => false
    case Loaded(d) => data == JobRecord(Pending, "", "") && d == JobRecord(Running, "", "")
    case Executing(d) => data == JobRecord(Running, "", "") && d == data
    case Finished(d) => data == JobRecord(Running, "", "") && Terminal(d)
    case Settled => Terminal(data)
    case Gone => Terminal(data)
    case Dead => true
  }

  ghost predicate RecordsInv(s: State) {
    && (forall m :: m in s.tasks && s.tasks[m].job in s.records ==>
          StageFits(s.tasks[m].stage, s.records[s.tasks[m].job]))
    && (forall job :: job in s.records && !Taken(s, job) ==> s.records[job] == JobRecord(Pending, "", ""))
  }

  ghost predicate Taken(s: State, job: Job) {
    exists m :: m in s.tasks && s.tasks[m].job == job
  }

  /** A message is off the pending list exactly when its task has acknowledged it. */
  ghost predicate AcksInv(s: State) {
    && G.Conserved(s.group)
    && forall m :: m in s.tasks ==> (m in s.group.acked <==> s.tasks[m].stage.Gone?)
  }

  ghost predicate BatchInv(s: State) {
    forall b :: b in s.batches ==> forall j :: j in s.batches[b] ==> j in s.records
  }

  ghost predicate Inv(s: State) {
    LogInv(s) && TasksInv(s) && RecordsInv(s) && AcksInv(s) && BatchInv(s)
  }

  /** Records are never deleted, the log only grows, and a task keeps its job. */
  lemma Growth(s: State, a: Step)
    requires Enabled(s, a) && TasksInv(s)
    ensures s.records.Keys <= Next(s, a).records.Keys && s.group.log <= Next(s, a).group.log
    ensures s.limit == Next(s, a).limit
    ensures forall m :: m in s.tasks ==> m in Next(s, a).tasks && Next(s, a).tasks[m].job == s.tasks[m].job
                                         && Next(s, a).tasks[m].process == s.tasks[m].process
  {
  }

  lemma LogStep(s: State, a: Step)
    requires LogInv(s) && Enabled(s, a)
    ensures LogInv(Next(s, a))
  {
  }

  lemma TasksStep(s: State, a: Step)
    requires TasksInv(s) && Enabled(s, a)
    ensures TasksInv(Next(s, a))
  {
  }

  lemma BatchStep(s: State, a: Step)
    requires BatchInv(s) && TasksInv(s) && Enabled(s, a)
    ensures BatchInv(Next(s, a))
  {
  }

  lemma SameJobSameTask(s: State, m: nat, n: nat)
    requires LogInv(s) && TasksInv(s) && m in s.tasks && n in s.tasks && s.tasks[m].job == s.tasks[n].job
    ensures m == n
  {
  }

  lemma AcksStep(s: State, a: Step)
    requires TasksInv(s) && AcksInv(s) && Enabled(s, a)
    ensures AcksInv(Next(s, a))
  {
    if a.Publish? {
      G.ConservedStep(s.group, G.Publish(a.job));
    } else if a.Claim? {
      G.ConservedStep(s.group, G.Claim("worker-0"));
    } else if a.Acknowledge? {
      AcknowledgeStep(s, a.msg);
    } else {
      assert Next(s, a).group == s.group && Next(s, a).tasks.Keys == s.tasks.Keys;
    }
  }

  lemma AcknowledgeStep(s: State, m: nat)
    requires TasksInv(s) && AcksInv(s) && Enabled(s, Acknowledge(m))
    ensures AcksInv(Next(s, Acknowledge(m)))
  {
  }

  lemma RecordsStep(s: State, a: Step)
    requires Inv(s) && Enabled(s, a)
    ensures RecordsInv(Next(s, a))
  {
    var s' := Next(s, a);
    forall m | m in s'.tasks && s'.tasks[m].job in s'.records
      ensures StageFits(s'.tasks[m].stage, s'.records[s'.tasks[m].job])
    {
      StageStep(s, a, m);
    }
    forall job | job in s'.records && !Taken(s', job) ensures s'.records[job] == JobRecord(Pending, "", "") {
      UntakenStep(s, a, job);
    }
  }

  lemma TakenStays(s: State, a: Step, job: Job)
    requires Enabled(s, a) && TasksInv(s)
    ensures Taken(s, job) ==> Taken(Next(s, a), job)
  {
    Growth(s, a);
  }

  lemma NextIsUntaken(s: State)
    requires LogInv(s) && TasksInv(s) && s.group.delivered < |s.group.log|
    ensures !Taken(s, s.group.log[s.group.delivered])
  {
  }

  lemma UntakenStep(s: State, a: Step, job: Job)
    requires Inv(s) && Enabled(s, a) && job in Next(s, a).records && !Taken(Next(s, a), job)
    ensures Next(s, a).records[job] == JobRecord(Pending, "", "")
  {
    var s' := Next(s, a);
    TakenStays(s, a, job);
    if a.WriteRunning? || a.WriteOutcome? {
      assert s'.tasks[a.msg].job == s.tasks[a.msg].job;
    }
  }

  lemma StageStep(s: State, a: Step, m: nat)
    requires Inv(s) && Enabled(s, a) && m in Next(s, a).tasks && Next(s, a).tasks[m].job in Next(s, a).records
    ensures StageFits(Next(s, a).tasks[m].stage, Next(s, a).records[Next(s, a).tasks[m].job])
  {
    if a.Claim? && m == s.group.delivered {
      NextIsUntaken(s);
    } else {
      assert s.tasks[m].job == s.group.log[m];
      assert StageFits(s.tasks[m].stage, s.records[s.tasks[m].job]);
      if (a.WriteRunning? || a.WriteOutcome?) && s.tasks[a.msg].job == s.tasks[m].job {
        SameJobSameTask(s, a.msg, m);
      }
    }
  }

  lemma InvStep(s: State, a: Step)
    requires Inv(s) && Enabled(s, a)
    ensures Inv(Next(s, a))
  {
    LogStep(s, a);
    TasksStep(s, a);
    BatchStep(s, a);
    RecordsStep(s, a);
    AcksStep(s, a);
  }

  lemma {:induction false} InvRun(s: State, run: seq<Step>)
    requires Inv(s) && IsRun(s, run)
    ensures Inv(Final(s, run))
    decreases |run|
  {
    if run != [] {
      InvStep(s, run[0]);
      InvRun(Next(s, run[0]), run[1..]);
    }
  }

  lemma InitInv(limit: nat)
    ensures Inv(Init(limit))
  {
  }

  // ---- The life cycle ------------------------------------------------------------------------------------

  /** A record stays as it is, or moves one place along pending, running, done-or-failed. */
  lemma LifeCycleStep(s: State, a: Step, job: Job)
    requires Inv(s) && Enabled(s, a) && job in s.records
    ensures job in Next(s, a).records
    ensures var r, r' := s.records[job], Next(s, a).records[job];
            r' == r || Rank(r'.status) == Rank(r.status) + 1
  {
    if (a.WriteRunning? || a.WriteOutcome?) && s.tasks[a.msg].job == job {
      assert StageFits(s.tasks[a.msg].stage, s.records[job]);
    }
  }

  /** Over any run a record never moves back, and a terminal record is never rewritten. */
  lemma {:induction false} LifeCycle(s: State, run: seq<Step>, job: Job)
    requires Inv(s) && IsRun(s, run) && job in s.records
    ensures job in Final(s, run).records
    ensures Rank(s.records[job].status) <= Rank(Final(s, run).records[job].status)
    ensures Terminal(s.records[job]) ==> Final(s, run).records[job] == s.records[job]
    decreases |run|
  {
    if run != [] {
      LifeCycleStep(s, run[0], job);
      InvStep(s, run[0]);
      LifeCycle(Next(s, run[0]), run[1..], job);
    }
  }

  /** In every reachable state: an acknowledged message's job is terminal, every claimed job has a record,
      and no two messages carry the same job. */
  lemma AckedMeansTerminal(limit: nat, run: seq<Step>, msg: nat)
    requires IsRun(Init(limit), run)
    requires msg < Final(Init(limit), run).group.delivered
    ensures var s := Final(Init(limit), run);
            && msg < |s.group.log| && s.group.log[msg] in s.records
            && (msg in s.group.acked ==> Terminal(s.records[s.group.log[msg]]))
            && (msg in s.group.acked <==> msg !in s.group.pending)
            && (forall other :: 0 <= other < |s.group.log| && other != msg ==> s.group.log[other] != s.group.log[msg])
  {
    InitInv(limit);
    InvRun(Init(limit), run);
    var s := Final(Init(limit), run);
    assert msg in s.tasks && StageFits(s.tasks[msg].stage, s.records[s.tasks[msg].job]);
  }

  // ---- The semaphore ----------------------------------------------------------------------------------------

  lemma HoldersStep(s: State, a: Step, p: Process)
    requires TasksInv(s) && |Holders(s, p)| <= s.limit && Enabled(s, a)
    ensures |Holders(Next(s, a), p)| <= s.limit
  {
    var s' := Next(s, a);
    if a.Enter? && s.tasks[a.msg].process == p {
      SubsetSize(Holders(s', p), Holders(s, p) + {a.msg});
    } else {
      SubsetSize(Holders(s', p), Holders(s, p));
    }
  }

  lemma {:induction false} HoldersRun(s: State, run: seq<Step>, p: Process)
    requires Inv(s) && |Holders(s, p)| <= s.limit && IsRun(s, run)
    ensures |Holders(Final(s, run), p)| <= s.limit == Final(s, run).limit
    decreases |run|
  {
    hide Holders, Enabled, Next, LogInv, TasksInv, RecordsInv, AcksInv;
    if run != [] {
      Growth(s, run[0]);
      HoldersStep(s, run[0], p);
      InvStep(s, run[0]);
      HoldersRun(Next(s, run[0]), run[1..], p);
    }
  }

  function RunningOf(s: State, p: Process): set<nat> {
    set m | m in s.tasks && s.tasks[m].process == p && s.tasks[m].job in s.records
            && s.records[s.tasks[m].job].status.Running?
  }

  function DeadOf(s: State, p: Process): set<nat> {
    set m | m in s.tasks && s.tasks[m].process == p && s.tasks[m].stage.Dead?
  }

  /** At most FLEET_CONCURRENCY records of one process say "running", not counting tasks that died. */
  lemma BoundedConcurrency(limit: nat, run: seq<Step>, p: Process)
    requires IsRun(Init(limit), run)
    ensures |RunningOf(Final(Init(limit), run), p) - DeadOf(Final(Init(limit), run), p)| <= limit
  {
    InitInv(limit);
    InvRun(Init(limit), run);
    var s := Final(Init(limit), run);
    assert Holders(Init(limit), p) == {};
    HoldersRun(Init(limit), run, p);
    forall m | m in RunningOf(s, p) - DeadOf(s, p) ensures m in Holders(s, p) {
      assert StageFits(s.tasks[m].stage, s.records[s.tasks[m].job]);
    }
    SubsetSize(RunningOf(s, p) - DeadOf(s, p), Holders(s, p));
  }

  lemma NoDeathStep(s: State, a: Step, p: Process)
    requires TasksInv(s) && Enabled(s, a) && DeadOf(s, p) == {} && !a.Die?
    ensures DeadOf(Next(s, a), p) == {}
  {
  }

  lemma {:induction false} NoDeaths(s: State, run: seq<Step>, p: Process)
    requires Inv(s) && IsRun(s, run) && DeadOf(s, p) == {}
    requires forall i :: 0 <= i < |run| ==> !run[i].Die?
    ensures DeadOf(Final(s, run), p) == {}
    decreases |run|
  {
    hide DeadOf, Enabled, Next, LogInv, TasksInv, RecordsInv, AcksInv;
    if run != [] {
      InvStep(s, run[0]);
      NoDeathStep(s, run[0], p);
      NoDeaths(Next(s, run[0]), run[1..], p);
    }
  }

  /** When no task dies, the bound holds for all running records. */
  lemma BoundedRunningRecords(limit: nat, run: seq<Step>, p: Process)
    requires IsRun(Init(limit), run) && forall i :: 0 <= i < |run| ==> !run[i].Die?
    ensures |RunningOf(Final(Init(limit), run), p)| <= limit
  {
    InitInv(limit);
    BoundedConcurrency(limit, run, p);
    assert DeadOf(Init(limit), p) == {};
    NoDeaths(Init(limit), run, p);
    assert RunningOf(Final(Init(limit), run), p) - {} == RunningOf(Final(Init(limit), run), p);
  }
}
