/** `submit_batch` and `_submit_one`: records are written and published one by one, with everybody else free to act
    before each Redis command. */
module FleetSubmit {
  import Basics
  import opened Fleet
  import P = FleetPoll
  import G = StreamGroup

  /** The submitting request's own job ids and batch id are fresh: nobody else uses them in a command of theirs. */
  predicate Concerns(a: Step, mine: set<Job>, batch: string) {
    match a
    case Submit(job) => job in mine
    case Publish(job, _) => job in mine
    case StoreBatch(b, _) => b == batch
    case _ => false
  }

  function Others(s: State, turn: seq<Step>, mine: set<Job>, batch: string): (run: seq<Step>)
    ensures IsRun(s, run)
    decreases |turn|
  {
    if turn == [] then []
    else if Enabled(s, turn[0]) && !Concerns(turn[0], mine, batch) then
      var rest := Others(Next(s, turn[0]), turn[1..], mine, batch);
      assert ([turn[0]] + rest)[1..] == rest;
      [turn[0]] + rest
    else Others(s, turn[1..], mine, batch)
  }

  /** Where the request's jobs stand: recorded or not, still to be published or not, and on the stream or not. */
  ghost predicate Same(s: State, t: State, mine: set<Job>, batch: string) {
    && (forall job :: job in mine ==> (job in s.records <==> job in t.records))
    && (forall job :: job in mine ==> (job in s.unpublished <==> job in t.unpublished))
    && (forall job :: job in mine ==> (job in s.group.log <==> job in t.group.log))
    && (batch in s.batches <==> batch in t.batches)
  }

  lemma StepIsSame(s: State, a: Step, mine: set<Job>, batch: string)
    requires Inv(s) && Enabled(s, a) && !Concerns(a, mine, batch)
    ensures Inv(Next(s, a)) && Same(s, Next(s, a), mine, batch)
  {
    InvStep(s, a);
    assert LogInv(s) && TasksInv(s);
    hide Inv, Same;
    if a.Publish? {
      PublishIsSame(s, a.job, a.published, mine, batch);
    } else {
      LeavesLog(s, a);
      if a.WriteRunning? || a.WriteOutcome? { assert s.tasks[a.msg].job == s.group.log[a.msg]; }
      UnpublishedSame(s, a, mine, batch);
    }
  }

  lemma LeavesLog(s: State, a: Step)
    requires Enabled(s, a) && !a.Publish?
    ensures Next(s, a).group.log == s.group.log
  {
  }

  lemma PublishIsSame(s: State, job: Job, published: bool, mine: set<Job>, batch: string)
    requires Enabled(s, Publish(job, published)) && job !in mine
    ensures Same(s, Next(s, Publish(job, published)), mine, batch)
  {
  }

  lemma UnpublishedSame(s: State, a: Step, mine: set<Job>, batch: string)
    requires Enabled(s, a) && !Concerns(a, mine, batch) && !a.Publish? && Next(s, a).group.log == s.group.log
    requires a.WriteRunning? || a.WriteOutcome? ==> s.tasks[a.msg].job in s.records
    ensures Same(s, Next(s, a), mine, batch)
  {
  }

  lemma {:induction false} OthersAreSame(s: State, turn: seq<Step>, mine: set<Job>, batch: string)
    requires Inv(s)
    ensures Inv(Final(s, Others(s, turn, mine, batch)))
    ensures Same(s, Final(s, Others(s, turn, mine, batch)), mine, batch)
    decreases |turn|
  {
    hide Inv, Next, Enabled, Concerns;
    if turn != [] {
      if Enabled(s, turn[0]) && !Concerns(turn[0], mine, batch) {
        StepIsSame(s, turn[0], mine, batch);
        assert ([turn[0]] + Others(Next(s, turn[0]), turn[1..], mine, batch))[1..]
            == Others(Next(s, turn[0]), turn[1..], mine, batch);
        OthersAreSame(Next(s, turn[0]), turn[1..], mine, batch);
      } else {
        OthersAreSame(s, turn[1..], mine, batch);
      }
    }
  }

  class Gateway {
    var world: State
    ghost const origin: State
    ghost var history: seq<Step>

    ghost predicate Valid()
      reads this
    {
      Inv(origin) && IsRun(origin, history) && Final(origin, history) == world && Inv(world)
    }

    constructor (world: State)
      requires Inv(world)
      ensures Valid() && this.world == world
    {
      this.world, this.origin, this.history := world, world, [];
    }

    /** The others act. */
    method Let(turn: seq<Step>, mine: set<Job>, batch: string)
      requires Valid()
      modifies this`world, this`history
      ensures Valid() && Same(old(world), world, mine, batch)
    {
      OthersAreSame(world, turn, mine, batch);
      ghost var run := Others(world, turn, mine, batch);
      P.RunConcat(origin, history, run);
      world := Final(world, Others(world, turn, mine, batch));
      history := history + run;
    }

    /** This request issues one command. */
    method Do(a: Step)
      requires Valid() && Enabled(world, a)
      modifies this`world, this`history
      ensures Valid() && world == Next(old(world), a)
    {
      InvStep(world, a);
      assert [a][1..] == [] && IsRun(Next(world, a), []);
      P.RunConcat(origin, history, [a]);
      world := Next(world, a);
      history := history + [a];
    }

    /** `_submit_one`: the job is recorded, and on the stream exactly when publishing went well. */
    method SubmitOne(job: Job, published: bool, turn: seq<Step>, turn': seq<Step>, mine: set<Job>, batch: string)
      requires Valid() && job in mine && job !in world.records
      modifies this`world, this`history
      ensures Valid() && job in world.records && (job in world.group.log <==> published)
      ensures job !in world.unpublished && Same(old(world), world, mine - {job}, batch)
    {
      WriteRecord(job, turn, mine, batch);
      PublishJob(job, published, turn', mine, batch);
    }

    method WriteRecord(job: Job, turn: seq<Step>, mine: set<Job>, batch: string)
      requires Valid() && job in mine && job !in world.records
      modifies this`world, this`history
      ensures Valid() && job in world.records && job in world.unpublished && job !in world.group.log
      ensures Same(old(world), world, mine - {job}, batch)
    {
      NotLogged(world, job);
      ghost var s := world;
      Let(turn, mine, batch);
      hide Valid, Next;
      SubmitEffect(s, world, job, mine, batch);
      Do(Submit(job));
    }

    method PublishJob(job: Job, published: bool, turn: seq<Step>, mine: set<Job>, batch: string)
      requires Valid() && job in mine && job in world.unpublished && job in world.records && job !in world.group.log
      modifies this`world, this`history
      ensures Valid() && job in world.records && job !in world.unpublished
      ensures job in world.group.log <==> published
      ensures Same(old(world), world, mine - {job}, batch)
    {
      ghost var s := world;
      Let(turn, mine, batch);
      hide Valid, Next;
      PublishEffect(s, world, job, published, mine, batch);
      Do(Publish(job, published));
    }

    /** `submit_batch`: afterwards the batch lists just these jobs, in order; each is recorded, and on the stream
        exactly when its publishing went well. */
    method SubmitBatch(batch: string, jobs: seq<Job>, published: nat -> bool, turns: nat -> seq<Step>)
      requires Valid() && Basics.Distinct(jobs) && batch !in world.batches
      requires forall job :: job in jobs ==> job !in world.records
      modifies this`world, this`history
      ensures Valid() && batch in world.batches && world.batches[batch] == jobs
      ensures forall i :: 0 <= i < |jobs| ==>
                jobs[i] in world.records && (jobs[i] in world.group.log <==> published(i))
    {
      hide Valid;
      var mine := set job | job in jobs;
      for i := 0 to |jobs|
        invariant Valid() && batch !in world.batches
        invariant forall k :: i <= k < |jobs| ==> jobs[k] !in world.records
        invariant forall k :: 0 <= k < i ==>
                    jobs[k] in world.records && (jobs[k] in world.group.log <==> published(k))
      {
        SubmitOne(jobs[i], published(i), turns(2 * i), turns(2 * i + 1), mine, batch);
      }
      Let(turns(2 * |jobs|), mine, batch);
      Do(StoreBatch(batch, jobs));
    }
  }

  lemma SubmitEffect(s: State, t: State, job: Job, mine: set<Job>, batch: string)
    requires Same(s, t, mine, batch) && job in mine && job !in s.records && job !in s.group.log
    ensures Enabled(t, Submit(job))
    ensures var u := Next(t, Submit(job));
            && job in u.records && job in u.unpublished && job !in u.group.log
            && Same(s, u, mine - {job}, batch)
  {
  }

  lemma PublishEffect(s: State, t: State, job: Job, published: bool, mine: set<Job>, batch: string)
    requires Same(s, t, mine, batch) && job in mine && job in s.unpublished && job in s.records && job !in s.group.log
    ensures Enabled(t, Publish(job, published))
    ensures var u := Next(t, Publish(job, published));
            && job in u.records && job !in u.unpublished && (job in u.group.log <==> published)
            && Same(s, u, mine - {job}, batch)
  {
  }

  lemma NotLogged(s: State, job: Job)
    requires Inv(s) && job !in s.records
    ensures job !in s.group.log && job !in s.unpublished
  {
  }
}
