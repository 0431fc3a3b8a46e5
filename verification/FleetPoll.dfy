/** `get_batch`: one record read per job, with the workers free to act between the reads. */
module FleetPoll {
  import opened Fleet

  datatype Report = Report(status: Status, result: string, error: string)

  /** What `get_batch` reports for a job. */
  function Look(s: State, job: Job): Report {
    if job in s.records then
      var d := s.records[job];
      Report(d.status, d.result, d.error)
    else Report(Failed, "", "job record missing")
  }

  /** The report repeats the record's status, result and error, and is a failure when there is no record. */
  predicate Tells(r: Report, records: map<Job, JobRecord>, job: Job) {
    if job in records then
      r.status == records[job].status && r.result == records[job].result && r.error == records[job].error
    else r.status.Failed? && r.error == "job record missing"
  }

  lemma LookTells(s: State, job: Job)
    ensures Tells(Look(s, job), s.records, job)
  {
  }

  function CountOf(reports: seq<Report>, status: Status): nat {
    if reports == [] then 0
    else CountOf(reports[..|reports| - 1], status) + (if reports[|reports| - 1].status == status then 1 else 0)
  }

  /** The steps of `turn` that can happen now. */
  function Happening(s: State, turn: seq<Step>): (run: seq<Step>)
    ensures IsRun(s, run)
    decreases |turn|
  {
    if turn == [] then []
    else if Enabled(s, turn[0]) then
      var rest := Happening(Next(s, turn[0]), turn[1..]);
      assert ([turn[0]] + rest)[1..] == rest;
      [turn[0]] + rest
    else Happening(s, turn[1..])
  }

  function Meanwhile(s: State, turn: seq<Step>): State {
    Final(s, Happening(s, turn))
  }

  /** The state at the i-th read of a poll. */
  function AtRead(s: State, turns: nat -> seq<Step>, i: nat): State
    decreases i, 1
  {
    Meanwhile(AfterReads(s, turns, i), turns(i))
  }

  /** The state after a poll's first `count` reads. */
  function AfterReads(s: State, turns: nat -> seq<Step>, count: nat): State
    decreases count, 0
  {
    if count == 0 then s else AtRead(s, turns, count - 1)
  }

  lemma CountSnoc(reports: seq<Report>, r: Report, status: Status)
    ensures CountOf(reports + [r], status) == CountOf(reports, status) + (if r.status == status then 1 else 0)
  {
  }

  lemma NoReports()
    ensures CountOf([], Succeeded) == 0 && CountOf([], Failed) == 0
  {
  }

  class FleetApi {
    var world: State

    constructor (world: State)
      ensures this.world == world
    {
      this.world := world;
    }

    method GetBatch(batch: string, turns: nat -> seq<Step>)
      returns (found: bool, total: nat, done: nat, failed: nat, results: seq<Report>)
      modifies this
      ensures found <==> batch in old(world).batches
      ensures !found ==> world == old(world)
      ensures found ==>
                var jobs := old(world).batches[batch];
                && total == |results| == |jobs|
                && (forall i :: 0 <= i < |jobs| ==> results[i] == Look(AtRead(old(world), turns, i), jobs[i]))
                && world == AfterReads(old(world), turns, |jobs|)
                && (forall i :: 0 <= i < |jobs| ==> Tells(results[i], AtRead(old(world), turns, i).records, jobs[i]))
                && done == CountOf(results, Succeeded) && failed == CountOf(results, Failed)
                && done + failed <= total
    {
      hide Meanwhile, Look, CountOf, Tells;
      total, done, failed, results := 0, 0, 0, [];
      assert CountOf([], Succeeded) == 0 && CountOf([], Failed) == 0 by { NoReports(); }
      if batch !in world.batches {
        return false, 0, 0, 0, [];
      }
      found := true;
      var jobs := world.batches[batch];
      for i := 0 to |jobs|
        invariant |results| == i && done + failed <= i
        invariant world == AfterReads(old(world), turns, i)
        invariant forall k :: 0 <= k < i ==> results[k] == Look(AtRead(old(world), turns, k), jobs[k])
        invariant done == CountOf(results, Succeeded) && failed == CountOf(results, Failed)
      {
        world := Meanwhile(world, turns(i));
        var status := Look(world, jobs[i]);
        CountSnoc(results, status, Succeeded);
        CountSnoc(results, status, Failed);
        results := results + [status];
        if status.status.Succeeded? {
          done := done + 1;
        } else if status.status.Failed? {
          failed := failed + 1;
        }
      }
      total := |jobs|;
      forall i | 0 <= i < |jobs| ensures Tells(results[i], AtRead(old(world), turns, i).records, jobs[i]) {
        LookTells(AtRead(old(world), turns, i), jobs[i]);
      }
    }
  }

  // ---- Polls over time -------------------------------------------------------------------------------------

  /** `t` can come after `s`. */
  ghost predicate Later(s: State, t: State) {
    exists run :: IsRun(s, run) && Final(s, run) == t
  }

  lemma {:induction false} RunConcat(s: State, p: seq<Step>, q: seq<Step>)
    requires IsRun(s, p) && IsRun(Final(s, p), q)
    ensures IsRun(s, p + q) && Final(s, p + q) == Final(Final(s, p), q)
    decreases |p|
  {
    if p == [] {
      assert p + q == q;
    } else {
      RunConcat(Next(s, p[0]), p[1..], q);
      assert (p + q)[1..] == p[1..] + q;
    }
  }

  lemma LaterTrans(s: State, t: State, u: State)
    requires Later(s, t) && Later(t, u)
    ensures Later(s, u)
  {
    var p :| IsRun(s, p) && Final(s, p) == t;
    var q :| IsRun(t, q) && Final(t, q) == u;
    RunConcat(s, p, q);
  }

  lemma {:induction false} ReadIsLater(s: State, turns: nat -> seq<Step>, i: nat)
    ensures Later(s, AtRead(s, turns, i))
  {
    hide Later;
    MeanwhileIsLater(AfterReads(s, turns, i), turns(i));
    if i > 0 {
      ReadIsLater(s, turns, i - 1);
      LaterTrans(s, AtRead(s, turns, i - 1), AtRead(s, turns, i));
    }
  }

  lemma {:induction false} ReadsInOrder(s: State, turns: nat -> seq<Step>, i: nat, j: nat)
    requires i <= j
    ensures Later(AtRead(s, turns, i), AtRead(s, turns, j))
    decreases j - i
  {
    if i == j {
      assert IsRun(AtRead(s, turns, i), []);
    } else {
      ReadsInOrder(s, turns, i, j - 1);
      MeanwhileIsLater(AfterReads(s, turns, j), turns(j));
      LaterTrans(AtRead(s, turns, i), AtRead(s, turns, j - 1), AtRead(s, turns, j));
    }
  }

  predicate Settles(a: Report, b: Report) {
    && Rank(a.status) <= Rank(b.status)
    && (a.status.Succeeded? || a.status.Failed? ==> a == b)
  }

  lemma {:induction false} CountsGrow(a: seq<Report>, b: seq<Report>, status: Status)
    requires |a| == |b| && (status.Succeeded? || status.Failed?)
    requires forall i :: 0 <= i < |a| ==> Settles(a[i], b[i])
    ensures CountOf(a, status) <= CountOf(b, status)
  {
    if a != [] {
      CountsGrow(a[..|a| - 1], b[..|b| - 1], status);
    }
  }

  lemma LaterKeeps(s: State, t: State, job: Job)
    requires Inv(s) && Later(s, t) && job in s.records
    ensures Inv(t) && job in t.records && Settles(Look(s, job), Look(t, job))
  {
    var run :| IsRun(s, run) && Final(s, run) == t;
    InvRun(s, run);
    LifeCycle(s, run, job);
  }

  /** One job, read in a poll and read again in a poll begun later. */
  lemma JobSettles(s: State, turns: nat -> seq<Step>, i: nat, last: nat, between: seq<Step>, later: nat -> seq<Step>,
                   job: Job)
    requires Inv(s) && job in s.records && i <= last
    ensures Settles(Look(AtRead(s, turns, i), job),
                    Look(AtRead(Meanwhile(AtRead(s, turns, last), between), later, i), job))
  {
    hide Inv, Look, Settles, Later;
    var u := AtRead(s, turns, last);
    var t := Meanwhile(u, between);
    var early, late := AtRead(s, turns, i), AtRead(t, later, i);
    ReadIsLater(s, turns, i);
    LaterKeeps(s, early, job);
    ReadsInOrder(s, turns, i, last);
    MeanwhileIsLater(u, between);
    LaterTrans(early, u, t);
    ReadIsLater(t, later, i);
    LaterTrans(early, t, late);
    LaterKeeps(early, late, job);
  }

  lemma MeanwhileIsLater(s: State, turn: seq<Step>)
    ensures Later(s, Meanwhile(s, turn))
  {
  }

  /** The reports of a poll of `jobs` begun in state `s`. */
  ghost predicate IsPoll(s: State, jobs: seq<Job>, turns: nat -> seq<Step>, reports: seq<Report>) {
    |reports| == |jobs| && forall i :: 0 <= i < |jobs| ==> reports[i] == Look(AtRead(s, turns, i), jobs[i])
  }

  /** Two polls of a batch, the second begun at any time after the first ended: a job once reported done
      or failed is reported with the same status, result and error, no status moves back, and neither count falls. */
  lemma PollsAreMonotone(limit: nat, start: seq<Step>, batch: string, turns: nat -> seq<Step>, between: seq<Step>,
                         later: nat -> seq<Step>, first: seq<Report>, second: seq<Report>)
    requires IsRun(Init(limit), start) && batch in Final(Init(limit), start).batches
    requires IsPoll(Final(Init(limit), start), Final(Init(limit), start).batches[batch], turns, first)
    requires var s := Final(Init(limit), start);
             var jobs := s.batches[batch];
             IsPoll(Meanwhile(AfterReads(s, turns, |jobs|), between), jobs, later, second)
    ensures forall i :: 0 <= i < |first| ==> Settles(first[i], second[i])
    ensures CountOf(first, Succeeded) <= CountOf(second, Succeeded) && CountOf(first, Failed) <= CountOf(second, Failed)
  {
    hide Look, Settles, AtRead, Meanwhile, CountOf, Final;
    var s := Final(Init(limit), start);
    var jobs := s.batches[batch];
    InitInv(limit);
    InvRun(Init(limit), start);
    forall i | 0 <= i < |jobs| ensures Settles(first[i], second[i]) {
      assert jobs[i] in jobs;
      JobSettles(s, turns, i, |jobs| - 1, between, later, jobs[i]);
    }
    CountsGrow(first, second, Succeeded);
    CountsGrow(first, second, Failed);
  }
}
