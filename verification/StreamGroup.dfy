/** A stream with one consumer group, and the workers that publish, claim, acknowledge and recover.

    A message id is the message's position in the log.  Every Redis command is one atomic step;
    commands of different workers interleave freely. */
module StreamGroup {
  import opened Basics

  datatype Delivery = Delivery(consumer: string, at: nat)

  /** `log` is the stream, `delivered` how much of it the group has handed out, `pending` the PEL;
      `acked` collects the ids that an acknowledgement took off the PEL. */
  datatype Group<Task> = Group(log: seq<Task>, delivered: nat, pending: map<nat, Delivery>, acked: set<nat>, now: nat)

  datatype Command<Task> =
    | Publish(task: Task)
    | Claim(consumer: string)
    | Ack(id: nat)
    | Reclaim(id: nat, consumer: string, minIdle: nat)
    | Tick(ms: nat)

  function Create<Task>(): Group<Task> {
    Group([], 0, map[], {}, 0)
  }

  predicate IdleEnough<Task>(g: Group<Task>, id: nat, minIdle: nat) {
    id in g.pending && g.now >= g.pending[id].at + minIdle
  }

  /** The message a command hands to its caller. */
  function Reply<Task>(g: Group<Task>, c: Command<Task>): Option<nat> {
    match c
    case Claim(_) => if g.delivered < |g.log| then Some(g.delivered) else None
    case Reclaim(id, _, minIdle) => if IdleEnough(g, id, minIdle) then Some(id) else None
    case _ => None
  }

  function Apply<Task>(g: Group<Task>, c: Command<Task>): Group<Task> {
    match c
    case Publish(task) => g.(log := g.log + [task])
    case Claim(consumer) =>
      if g.delivered < |g.log| then
        g.(delivered := g.delivered + 1, pending := g.pending[g.delivered := Delivery(consumer, g.now)])
      else g
    case Ack(id) => if id in g.pending then g.(pending := g.pending - {id}, acked := g.acked + {id}) else g
    case Reclaim(id, consumer, minIdle) =>
      if IdleEnough(g, id, minIdle) then g.(pending := g.pending[id := Delivery(consumer, g.now)]) else g
    case Tick(ms) => g.(now := g.now + ms)
  }

  function After<Task>(g: Group<Task>, cs: seq<Command<Task>>): Group<Task>
    decreases |cs|
  {
    if cs == [] then g else After(Apply(g, cs[0]), cs[1..])
  }

  // ---- Conservation -------------------------------------------------------------------------------------

  /** Every published message is undelivered, pending or acknowledged, and only one of them. */
  ghost predicate Conserved<Task>(g: Group<Task>) {
    && g.delivered <= |g.log|
    && (forall id :: id in g.pending ==> id !in g.acked)
    && (forall id: nat :: id in g.pending || id in g.acked <==> id < g.delivered)
  }

  lemma ConservedStep<Task>(g: Group<Task>, c: Command<Task>)
    requires Conserved(g)
    ensures Conserved(Apply(g, c))
    ensures g.log <= Apply(g, c).log && g.delivered <= Apply(g, c).delivered && g.acked <= Apply(g, c).acked
  {
  }

  lemma {:induction false} ConservationHolds<Task>(g: Group<Task>, cs: seq<Command<Task>>)
    requires Conserved(g)
    ensures Conserved(After(g, cs))
    ensures g.log <= After(g, cs).log && g.delivered <= After(g, cs).delivered && g.acked <= After(g, cs).acked
    decreases |cs|
  {
    if cs != [] {
      ConservedStep(g, cs[0]);
      ConservationHolds(Apply(g, cs[0]), cs[1..]);
    }
  }

  /** The ids that the group's claims hand out, in order. */
  function Claimed<Task>(g: Group<Task>, cs: seq<Command<Task>>): seq<nat>
    decreases |cs|
  {
    if cs == [] then []
    else
      (if cs[0].Claim? && Reply(g, cs[0]).Some? then [Reply(g, cs[0]).value] else [])
      + Claimed(Apply(g, cs[0]), cs[1..])
  }

  /** Claims hand out every message once, in publishing order. */
  lemma {:induction false} ClaimsInOrder<Task>(g: Group<Task>, cs: seq<Command<Task>>)
    ensures |Claimed(g, cs)| == After(g, cs).delivered - g.delivered
    ensures forall i :: 0 <= i < |Claimed(g, cs)| ==> Claimed(g, cs)[i] == g.delivered + i
    decreases |cs|
  {
    if cs != [] {
      ClaimsInOrder(Apply(g, cs[0]), cs[1..]);
    }
  }

  /** The k-th command of a run hands `id` to its caller. */
  predicate HandsOut<Task>(g: Group<Task>, cs: seq<Command<Task>>, k: nat, id: nat)
    requires k < |cs|
  {
    Reply(After(g, cs[..k]), cs[k]) == Some(id)
  }

  /** An acknowledged message is never handed out again, by a claim or by a recovery. */
  lemma AckedNeverReturns<Task>(g: Group<Task>, cs: seq<Command<Task>>, k: nat, id: nat)
    requires Conserved(g) && id in g.acked && k < |cs|
    ensures !HandsOut(g, cs, k, id)
  {
    ConservationHolds(g, cs[..k]);
  }

  // ---- Recovery -------------------------------------------------------------------------------------------

  /** The pending ids from `from` on, in id order. */
  function PendingFrom<Task>(g: Group<Task>, from: nat): seq<nat>
    decreases g.delivered - from
  {
    if from >= g.delivered then []
    else (if from in g.pending then [from] else []) + PendingFrom(g, from + 1)
  }

  const PAGE: nat := 10

  /** `XPENDING - + 10`. */
  function FirstPending<Task>(g: Group<Task>): seq<nat> {
    PendingFrom(g, 0)[..Min(PAGE, |PendingFrom(g, 0)|)]
  }

  lemma {:induction false} PendingFromLists<Task>(g: Group<Task>, from: nat)
    ensures forall id :: id in PendingFrom(g, from) <==> from <= id < g.delivered && id in g.pending
    ensures forall i, j :: 0 <= i < j < |PendingFrom(g, from)| ==> PendingFrom(g, from)[i] < PendingFrom(g, from)[j]
    decreases g.delivered - from
  {
    if from < g.delivered {
      PendingFromLists(g, from + 1);
      var rest := PendingFrom(g, from + 1);
      assert forall j :: 0 <= j < |rest| ==> rest[j] in rest;
    }
  }

  /** What `recover` does to the listed entries when the other workers run `turns(i)` before the i-th XCLAIM. */
  function RecoverAll<Task>(g: Group<Task>, ids: seq<nat>, consumer: string, minIdle: nat,
                            turns: nat -> seq<Command<Task>>, i: nat)
    : Group<Task>
    requires i <= |ids|
  {
    if i == 0 then g
    else
      var before := After(RecoverAll(g, ids, consumer, minIdle, turns, i - 1), turns(i - 1));
      Apply(before, Reclaim(ids[i - 1], consumer, minIdle))
  }

  function Recovered<Task>(g: Group<Task>, ids: seq<nat>, consumer: string, minIdle: nat,
                           turns: nat -> seq<Command<Task>>, i: nat)
    : seq<nat>
    requires i <= |ids|
  {
    if i == 0 then []
    else
      var before := After(RecoverAll(g, ids, consumer, minIdle, turns, i - 1), turns(i - 1));
      Recovered(g, ids, consumer, minIdle, turns, i - 1)
      + (if IdleEnough(before, ids[i - 1], minIdle) then [ids[i - 1]] else [])
  }

  lemma IdleInLog<Task>(g: Group<Task>, id: nat, minIdle: nat)
    requires Conserved(g) && IdleEnough(g, id, minIdle)
    ensures id < |g.log|
  {
  }

  class StreamWorker<Task> {
    var group: Group<Task>
    const consumer: string

    constructor (group: Group<Task>, consumer: string)
      ensures this.group == group && this.consumer == consumer
    {
      this.group, this.consumer := group, consumer;
    }

    method PublishTask(task: Task) returns (id: nat)
      modifies this
      ensures group == Apply(old(group), Publish(task))
      ensures id == |old(group).log| && group.log == old(group).log + [task]
    {
      id := |group.log|;
      group := Apply(group, Publish(task));
    }

    method ClaimOne() returns (message: Option<(nat, Task)>)
      modifies this
      ensures group == Apply(old(group), Claim(consumer))
      ensures message.None? <==> Reply(old(group), Claim(consumer)).None?
      ensures message.Some? ==> Reply(old(group), Claim(consumer)) == Some(message.value.0)
                                && message.value.1 == old(group).log[message.value.0]
      ensures message.None? <==> old(group).delivered >= |old(group).log|
      ensures message.None? ==> group == old(group)
      ensures message.Some? ==>
                var id := message.value.0;
                && id == old(group).delivered && group.delivered == id + 1 && group.log == old(group).log
                && group.pending == old(group).pending[id := Delivery(consumer, old(group).now)]
                && group.acked == old(group).acked && group.now == old(group).now
    {
      if group.delivered >= |group.log| {
        return None;
      }
      message := Some((group.delivered, group.log[group.delivered]));
      group := Apply(group, Claim(consumer));
    }

    /** A pending message leaves the pending list and is acknowledged; anything else changes nothing. */
    method AckMessage(id: nat)
      modifies this
      ensures group == Apply(old(group), Ack(id))
      ensures id !in group.pending
      ensures id in old(group).pending ==> id in group.acked && group.acked == old(group).acked + {id}
      ensures id !in old(group).pending ==> group == old(group)
      ensures forall other :: other != id ==> (other in group.pending <==> other in old(group).pending)
      ensures forall other :: other in group.pending ==> group.pending[other] == old(group).pending[other]
      ensures group.log == old(group).log && group.delivered == old(group).delivered && group.now == old(group).now
      ensures Conserved(old(group)) ==> Conserved(group)
    {
      if Conserved(group) { ConservedStep(group, Ack(id)); }
      group := Apply(group, Ack(id));
    }

    /** Entries that others acknowledge in the meantime, or that are not idle long enough, are left out. */
    method Recover(minIdle: nat, newConsumer: string, turns: nat -> seq<Command<Task>>)
      returns (recovered: seq<(nat, Task)>)
      requires Conserved(group)
      modifies this
      ensures var ids := FirstPending(old(group));
              && group == RecoverAll(old(group), ids, newConsumer, minIdle, turns, |ids|)
              && |recovered| == |Recovered(old(group), ids, newConsumer, minIdle, turns, |ids|)|
              && forall k :: 0 <= k < |recovered| ==>
                   && recovered[k].0 == Recovered(old(group), ids, newConsumer, minIdle, turns, |ids|)[k]
                   && recovered[k].0 < |group.log| && recovered[k].1 == group.log[recovered[k].0]
      ensures Conserved(group)
    {
      hide Conserved, Apply, After, IdleEnough, FirstPending;
      var ids := FirstPending(group);
      recovered := [];
      for i := 0 to |ids|
        invariant group == RecoverAll(old(group), ids, newConsumer, minIdle, turns, i) && Conserved(group)
        invariant |recovered| == |Recovered(old(group), ids, newConsumer, minIdle, turns, i)|
        invariant forall k :: 0 <= k < |recovered| ==>
                    && recovered[k].0 == Recovered(old(group), ids, newConsumer, minIdle, turns, i)[k]
                    && recovered[k].0 < |group.log| && recovered[k].1 == group.log[recovered[k].0]
      {
        ConservationHolds(group, turns(i));
        group := After(group, turns(i));
        if IdleEnough(group, ids[i], minIdle) {
          IdleInLog(group, ids[i], minIdle);
          recovered := recovered + [(ids[i], group.log[ids[i]])];
        }
        ConservedStep(group, Reclaim(ids[i], newConsumer, minIdle));
        group := Apply(group, Reclaim(ids[i], newConsumer, minIdle));
      }
    }
  }

  // ---- What one undisturbed recovery returns ----------------------------------------------------------------

  function Quiet<Task>(): nat -> seq<Command<Task>> {
    i => []
  }

  /** Without interference, recovery returns exactly the listed entries that are idle long enough, and
      hands them to the new consumer; nothing else changes. */
  lemma {:induction false} QuietRecovery<Task>(g: Group<Task>, ids: seq<nat>, consumer: string, minIdle: nat, i: nat)
    requires i <= |ids| && forall a, b :: 0 <= a < b < |ids| ==> ids[a] < ids[b]
    ensures var g' := RecoverAll(g, ids, consumer, minIdle, Quiet(), i);
            && g'.log == g.log && g'.delivered == g.delivered && g'.acked == g.acked && g'.now == g.now
            && g'.pending.Keys == g.pending.Keys
            && (forall id :: id in g.pending ==>
                  g'.pending[id] == if id in ids[..i] && IdleEnough(g, id, minIdle) then Delivery(consumer, g.now)
                                    else g.pending[id])
    ensures forall id :: id in Recovered(g, ids, consumer, minIdle, Quiet(), i) <==>
              id in ids[..i] && IdleEnough(g, id, minIdle)
    ensures (forall a :: 0 <= a < i ==> IdleEnough(g, ids[a], minIdle)) ==>
              Recovered(g, ids, consumer, minIdle, Quiet(), i) == ids[..i]
  {
    if i > 0 {
      hide After, RecoverAll, Recovered;
      QuietRecovery(g, ids, consumer, minIdle, i - 1);
      QuietStep(g, ids, consumer, minIdle, i);
      assert ids[..i] == ids[..i - 1] + [ids[i - 1]];
      assert ids[i - 1] !in ids[..i - 1];
    }
  }

  lemma QuietStep<Task>(g: Group<Task>, ids: seq<nat>, consumer: string, minIdle: nat, i: nat)
    requires 0 < i <= |ids|
    ensures var before := RecoverAll(g, ids, consumer, minIdle, Quiet(), i - 1);
            && RecoverAll(g, ids, consumer, minIdle, Quiet(), i)
               == Apply(before, Reclaim(ids[i - 1], consumer, minIdle))
            && Recovered(g, ids, consumer, minIdle, Quiet(), i)
               == Recovered(g, ids, consumer, minIdle, Quiet(), i - 1)
                  + (if IdleEnough(before, ids[i - 1], minIdle) then [ids[i - 1]] else [])
  {
  }

  /** What the i-th XCLAIM does, whatever the others did before it: an entry that is still pending and was delivered at
      least minIdle ago is returned and delivered anew, now and to the new consumer; any other entry is left alone;
      nothing else changes. */
  lemma XclaimMeans<Task>(g: Group<Task>, ids: seq<nat>, consumer: string, minIdle: nat,
                          turns: nat -> seq<Command<Task>>, i: nat)
    requires i < |ids|
    ensures var before := After(RecoverAll(g, ids, consumer, minIdle, turns, i), turns(i));
            var after := RecoverAll(g, ids, consumer, minIdle, turns, i + 1);
            var claimed := ids[i] in before.pending && before.now - before.pending[ids[i]].at >= minIdle;
            && Recovered(g, ids, consumer, minIdle, turns, i + 1)
               == Recovered(g, ids, consumer, minIdle, turns, i) + (if claimed then [ids[i]] else [])
            && after.pending.Keys == before.pending.Keys
            && (claimed ==> after.pending[ids[i]] == Delivery(consumer, before.now))
            && (forall id :: id in before.pending && (id != ids[i] || !claimed) ==>
                  after.pending[id] == before.pending[id])
            && after.log == before.log && after.delivered == before.delivered && after.acked == before.acked
            && after.now == before.now
  {
  }

  /** Undisturbed, recover returns exactly the entries among the first ten pending that were delivered at least minIdle
      ago; each of them is then delivered now, to the new consumer, and every other entry is as before. */
  lemma RecoveryRedelivers<Task>(g: Group<Task>, consumer: string, minIdle: nat)
    requires Conserved(g)
    ensures var ids := FirstPending(g);
            var found := Recovered(g, ids, consumer, minIdle, Quiet(), |ids|);
            var g' := RecoverAll(g, ids, consumer, minIdle, Quiet(), |ids|);
            && (forall id :: id in found <==> id in ids && id in g.pending && g.now - g.pending[id].at >= minIdle)
            && g'.pending.Keys == g.pending.Keys
            && (forall id :: id in g.pending ==>
                  g'.pending[id] == if id in found then Delivery(consumer, g.now) else g.pending[id])
            && g'.now == g.now && g'.delivered == g.delivered && Conserved(g')
  {
    PendingFromLists(g, 0);
    Redelivered(g, FirstPending(g), consumer, minIdle);
  }

  lemma Redelivered<Task>(g: Group<Task>, ids: seq<nat>, consumer: string, minIdle: nat)
    requires Conserved(g) && forall a, b :: 0 <= a < b < |ids| ==> ids[a] < ids[b]
    ensures var found := Recovered(g, ids, consumer, minIdle, Quiet(), |ids|);
            var g' := RecoverAll(g, ids, consumer, minIdle, Quiet(), |ids|);
            && (forall id :: id in found <==> id in ids && id in g.pending && g.now - g.pending[id].at >= minIdle)
            && g'.pending.Keys == g.pending.Keys
            && (forall id :: id in g.pending ==>
                  g'.pending[id] == if id in found then Delivery(consumer, g.now) else g.pending[id])
            && g'.now == g.now && g'.delivered == g.delivered && Conserved(g')
  {
    QuietRecovery(g, ids, consumer, minIdle, |ids|);
    assert ids[..|ids|] == ids;
    hide RecoverAll, Recovered;
  }

  /** A message delivered less than minIdle ago is not taken from its worker. */
  lemma RecentIsNotRecovered<Task>(g: Group<Task>, consumer: string, minIdle: nat, id: nat)
    requires Conserved(g) && id in g.pending && g.now - g.pending[id].at < minIdle
    ensures id !in Recovered(g, FirstPending(g), consumer, minIdle, Quiet(), |FirstPending(g)|)
    ensures var g' := RecoverAll(g, FirstPending(g), consumer, minIdle, Quiet(), |FirstPending(g)|);
            id in g'.pending && g'.pending[id] == g.pending[id]
  {
    RecoveryRedelivers(g, consumer, minIdle);
  }

  /** A second recovery before any time passes finds nothing, unless minIdle is 0. */
  lemma SecondRecoveryIsEmpty<Task>(g: Group<Task>, consumer: string, other: string, minIdle: nat)
    requires Conserved(g) && minIdle > 0
    ensures var g' := RecoverAll(g, FirstPending(g), consumer, minIdle, Quiet(), |FirstPending(g)|);
            Recovered(g', FirstPending(g'), other, minIdle, Quiet(), |FirstPending(g')|) == []
  {
    var g' := RecoverAll(g, FirstPending(g), consumer, minIdle, Quiet(), |FirstPending(g)|);
    RecoveryRedelivers(g, consumer, minIdle);
    RecoveryRedelivers(g', other, minIdle);
    SamePending(g, g', 0);
    hide RecoverAll, Recovered, PendingFrom;
    HasElement(Recovered(g', FirstPending(g'), other, minIdle, Quiet(), |FirstPending(g')|));
  }

  lemma HasElement(q: seq<nat>)
    ensures q != [] ==> exists id :: id in q
  {
    if q != [] { assert q[0] in q; }
  }

  /** Recovery finds every idle entry exactly when none of them comes after the tenth pending one. */
  lemma RecoveryIsCompleteExactlyOnFirstPage<Task>(g: Group<Task>, consumer: string, minIdle: nat)
    requires Conserved(g)
    ensures (forall id :: IdleEnough(g, id, minIdle) ==>
               id in Recovered(g, FirstPending(g), consumer, minIdle, Quiet(), |FirstPending(g)|))
            <==> forall i :: PAGE <= i < |PendingFrom(g, 0)| ==> !IdleEnough(g, PendingFrom(g, 0)[i], minIdle)
  {
    hide *;
    FirstPageFound(g, consumer, minIdle);
    IdleIsListed(g, minIdle);
    IdleBeyondFirstPage(g, minIdle);
  }

  lemma FirstPageFound<Task>(g: Group<Task>, consumer: string, minIdle: nat)
    ensures forall id :: id in Recovered(g, FirstPending(g), consumer, minIdle, Quiet(), |FirstPending(g)|) <==>
              id in FirstPending(g) && IdleEnough(g, id, minIdle)
  {
    var ids := FirstPending(g);
    PendingFromLists(g, 0);
    QuietRecovery(g, ids, consumer, minIdle, |ids|);
    assert ids[..|ids|] == ids;
  }

  lemma IdleIsListed<Task>(g: Group<Task>, minIdle: nat)
    requires Conserved(g)
    ensures forall id :: IdleEnough(g, id, minIdle) ==> id in PendingFrom(g, 0)
  {
    PendingFromLists(g, 0);
    forall id | IdleEnough(g, id, minIdle) ensures id in PendingFrom(g, 0) { assert id in g.pending; }
  }

  /** All listed idle entries are on the first page exactly when none comes after it. */
  lemma IdleBeyondFirstPage<Task>(g: Group<Task>, minIdle: nat)
    ensures (forall id :: id in PendingFrom(g, 0) && IdleEnough(g, id, minIdle) ==> id in FirstPending(g))
            <==> forall i :: PAGE <= i < |PendingFrom(g, 0)| ==> !IdleEnough(g, PendingFrom(g, 0)[i], minIdle)
  {
    PendingFromLists(g, 0);
    hide PendingFrom, IdleEnough;
    var all, ids := PendingFrom(g, 0), FirstPending(g);
    if forall i :: PAGE <= i < |all| ==> !IdleEnough(g, all[i], minIdle) {
      forall id | id in all && IdleEnough(g, id, minIdle) ensures id in ids {
        var i :| 0 <= i < |all| && all[i] == id;
        assert ids[i] == id;
      }
    } else {
      var i :| PAGE <= i < |all| && IdleEnough(g, all[i], minIdle);
      assert all[i] in all && all[i] !in ids;
    }
  }

  // ---- A group whose recovery is incomplete ----------------------------------------------------------------

  function Publishes<Task>(tasks: seq<Task>): seq<Command<Task>> {
    seq(|tasks|, i requires 0 <= i < |tasks| => Publish(tasks[i]))
  }

  function Claims<Task>(n: nat, consumer: string): seq<Command<Task>> {
    seq(n, i => Claim(consumer))
  }

  lemma {:induction false} AfterConcat<Task>(g: Group<Task>, p: seq<Command<Task>>, q: seq<Command<Task>>)
    ensures After(g, p + q) == After(After(g, p), q)
    decreases |p|
  {
    if p == [] {
      assert p + q == q;
    } else {
      assert (p + q)[1..] == p[1..] + q;
      AfterConcat(Apply(g, p[0]), p[1..], q);
    }
  }

  lemma {:induction false} AfterPublishes<Task>(g: Group<Task>, tasks: seq<Task>)
    ensures After(g, Publishes(tasks)) == g.(log := g.log + tasks)
    decreases |tasks|
  {
    if tasks == [] {
      assert g.log + tasks == g.log;
    } else {
      assert Publishes(tasks)[1..] == Publishes(tasks[1..]);
      AfterPublishes(Apply(g, Publish(tasks[0])), tasks[1..]);
      assert g.log + [tasks[0]] + tasks[1..] == g.log + tasks;
    }
  }

  lemma {:induction false} AfterClaims<Task>(g: Group<Task>, n: nat, consumer: string)
    requires g.delivered + n <= |g.log|
    ensures var h := After(g, Claims(n, consumer));
            && h.log == g.log && h.delivered == g.delivered + n && h.acked == g.acked && h.now == g.now
            && (forall id: nat :: id in h.pending <==> id in g.pending || g.delivered <= id < g.delivered + n)
            && (forall id :: id in g.pending && id < g.delivered ==> h.pending[id] == g.pending[id])
            && (forall id :: g.delivered <= id < g.delivered + n ==> h.pending[id] == Delivery(consumer, g.now))
    decreases n
  {
    if n > 0 {
      assert Claims<Task>(n, consumer)[1..] == Claims<Task>(n - 1, consumer);
      AfterClaims(Apply(g, Claim(consumer)), n - 1, consumer);
    }
  }

  lemma {:induction false} AllPending<Task>(g: Group<Task>, from: nat)
    requires from <= g.delivered && forall id :: from <= id < g.delivered ==> id in g.pending
    ensures |PendingFrom(g, from)| == g.delivered - from
    ensures forall i :: 0 <= i < g.delivered - from ==> PendingFrom(g, from)[i] == from + i
    decreases g.delivered - from
  {
    if from < g.delivered { AllPending(g, from + 1); }
  }

  /** Once more than ten messages have been published and claimed, `recover(0)` leaves out the eleventh,
      although it is pending and idle long enough. */
  lemma RecoverySkipsEleventh<Task>(tasks: seq<Task>, worker: string, consumer: string)
    requires |tasks| > PAGE
    ensures var g := After(Create(), Publishes(tasks) + Claims(|tasks|, worker));
            && Conserved(g) && IdleEnough(g, PAGE, 0)
            && PAGE !in Recovered(g, FirstPending(g), consumer, 0, Quiet(), |FirstPending(g)|)
  {
    hide *;
    AllClaimed(tasks, worker);
    var g := After(Create(), Publishes(tasks) + Claims(|tasks|, worker));
    FirstPageFound(g, consumer, 0);
    BeyondFirstPage(g, PAGE);
  }

  /** The group that as many publishes as claims leave behind: everything is pending since time 0. */
  lemma AllClaimed<Task>(tasks: seq<Task>, worker: string)
    ensures var g := After(Create(), Publishes(tasks) + Claims(|tasks|, worker));
            && Conserved(g) && g.delivered == |tasks|
            && forall id: nat :: id < |tasks| ==> id in g.pending && IdleEnough(g, id, 0)
  {
    hide After, Publishes, Claims;
    ConservationHolds(Create(), Publishes(tasks) + Claims(|tasks|, worker));
    AfterConcat(Create(), Publishes(tasks), Claims(|tasks|, worker));
    AfterPublishes(Create(), tasks);
    assert [] + tasks == tasks;
    AfterClaims(After(Create(), Publishes(tasks)), |tasks|, worker);
  }

  lemma BeyondFirstPage<Task>(g: Group<Task>, id: nat)
    requires PAGE <= id < g.delivered && forall other: nat :: other < g.delivered ==> other in g.pending
    ensures id !in FirstPending(g)
  {
    AllPending(g, 0);
    assert forall i :: 0 <= i < |FirstPending(g)| ==> FirstPending(g)[i] == i;
  }

  // ---- Draining ---------------------------------------------------------------------------------------------

  /** Acknowledging a list of ids. */
  function AckAll<Task>(g: Group<Task>, ids: seq<nat>): Group<Task>
    decreases |ids|
  {
    if ids == [] then g else AckAll(Apply(g, Ack(ids[0])), ids[1..])
  }

  /** One round: `recover(0)`, then acknowledge everything it returned. */
  function DrainRound<Task>(g: Group<Task>, consumer: string): Group<Task> {
    var ids := FirstPending(g);
    AckAll(RecoverAll(g, ids, consumer, 0, Quiet(), |ids|), Recovered(g, ids, consumer, 0, Quiet(), |ids|))
  }

  function Drain<Task>(g: Group<Task>, consumer: string, rounds: nat): Group<Task>
    decreases rounds
  {
    if rounds == 0 then g else Drain(DrainRound(g, consumer), consumer, rounds - 1)
  }

  lemma {:induction false} AckAllRemoves<Task>(g: Group<Task>, ids: seq<nat>)
    requires Conserved(g)
    ensures Conserved(AckAll(g, ids))
    ensures AckAll(g, ids).delivered == g.delivered && AckAll(g, ids).now == g.now
    ensures forall id :: id in AckAll(g, ids).pending <==> id in g.pending && id !in ids
    ensures forall id :: id in AckAll(g, ids).pending ==> AckAll(g, ids).pending[id] == g.pending[id]
    decreases |ids|
  {
    if ids != [] {
      ConservedStep(g, Ack(ids[0]));
      AckAllRemoves(Apply(g, Ack(ids[0])), ids[1..]);
      assert ids == [ids[0]] + ids[1..];
    }
  }

  ghost predicate DeliveredInPast<Task>(g: Group<Task>) {
    forall id :: id in g.pending ==> g.pending[id].at <= g.now
  }

  lemma {:induction false} DatesHold<Task>(g: Group<Task>, cs: seq<Command<Task>>)
    requires DeliveredInPast(g)
    ensures DeliveredInPast(After(g, cs))
    decreases |cs|
  {
    if cs != [] { DatesHold(Apply(g, cs[0]), cs[1..]); }
  }

  lemma {:induction false} SamePending<Task>(g: Group<Task>, h: Group<Task>, from: nat)
    requires g.delivered == h.delivered
    requires forall id :: id >= from ==> (id in h.pending <==> id in g.pending)
    ensures PendingFrom(h, from) == PendingFrom(g, from)
    decreases g.delivered - from
  {
    if from < g.delivered { SamePending(g, h, from + 1); }
  }

  lemma {:induction false} SkipTo<Task>(h: Group<Task>, from: nat, to: nat)
    requires from <= to <= h.delivered && forall id :: from <= id < to ==> id !in h.pending
    ensures PendingFrom(h, from) == PendingFrom(h, to)
    decreases h.delivered - from
  {
    if from < to { SkipTo(h, from + 1, to); }
  }

  lemma {:induction false} SuffixOfPending<Task>(g: Group<Task>, from: nat, k: nat) returns (to: nat)
    requires k <= |PendingFrom(g, from)| && from <= g.delivered
    ensures from <= to <= g.delivered && PendingFrom(g, from)[k..] == PendingFrom(g, to)
    ensures forall id :: id in PendingFrom(g, from)[..k] <==> from <= id < to && id in g.pending
    decreases g.delivered - from
  {
    if k == 0 {
      to := from;
    } else if from in g.pending {
      to := SuffixOfPending(g, from + 1, k - 1);
      var front, rest := PendingFrom(g, from)[..k], PendingFrom(g, from + 1)[..k - 1];
      assert front == [from] + rest;
      forall id ensures id in front <==> from <= id < to && id in g.pending {
        assert id in front <==> id == from || id in rest;
      }
    } else {
      assert PendingFrom(g, from) == PendingFrom(g, from + 1);
      to := SuffixOfPending(g, from + 1, k);
    }
  }

  /** Taking the first k pending ids away leaves the rest of the listing. */
  lemma DropPending<Task>(g: Group<Task>, h: Group<Task>, k: nat)
    requires g.delivered == h.delivered && k <= |PendingFrom(g, 0)|
    requires forall id :: id in h.pending <==> id in g.pending && id !in PendingFrom(g, 0)[..k]
    ensures PendingFrom(h, 0) == PendingFrom(g, 0)[k..]
  {
    var to := SuffixOfPending(g, 0, k);
    SkipTo(h, 0, to);
    SamePending(g, h, to);
  }

  lemma RoundTakesTen<Task>(g: Group<Task>, consumer: string)
    requires Conserved(g) && DeliveredInPast(g)
    ensures var g' := DrainRound(g, consumer);
            && Conserved(g') && DeliveredInPast(g')
            && PendingFrom(g', 0) == PendingFrom(g, 0)[Min(PAGE, |PendingFrom(g, 0)|)..]
  {
    var all, ids := PendingFrom(g, 0), FirstPending(g);
    PendingFromLists(g, 0);
    forall a | 0 <= a < |ids| ensures IdleEnough(g, ids[a], 0) { assert ids[a] in all; }
    QuietRecovery(g, ids, consumer, 0, |ids|);
    assert ids[..|ids|] == ids;
    hide PendingFrom, RecoverAll, Recovered, AckAll, IdleEnough, Conserved, DeliveredInPast;
    var h := RecoverAll(g, ids, consumer, 0, Quiet(), |ids|);
    RecoveredDates(g, ids, consumer, |ids|);
    AckAllRemoves(h, ids);
    DropPending(g, AckAll(h, ids), |ids|);
  }

  lemma {:induction false} RecoveredDates<Task>(g: Group<Task>, ids: seq<nat>, consumer: string, i: nat)
    requires i <= |ids| && Conserved(g) && DeliveredInPast(g)
    ensures Conserved(RecoverAll(g, ids, consumer, 0, Quiet(), i))
            && DeliveredInPast(RecoverAll(g, ids, consumer, 0, Quiet(), i))
  {
    if i > 0 {
      RecoveredDates(g, ids, consumer, i - 1);
      ConservedStep(RecoverAll(g, ids, consumer, 0, Quiet(), i - 1), Reclaim(ids[i - 1], consumer, 0));
    }
  }

  /** After r rounds ten entries a round are gone: n pending entries need exactly ceil(n / 10) rounds. */
  lemma {:induction false} DrainTakesExactlyCeilRounds<Task>(g: Group<Task>, consumer: string, rounds: nat)
    requires Conserved(g) && DeliveredInPast(g)
    ensures var n := |PendingFrom(g, 0)|;
            var g' := Drain(g, consumer, rounds);
            && |PendingFrom(g', 0)| == (if n <= PAGE * rounds then 0 else n - PAGE * rounds)
            && (g'.pending == map[] <==> rounds >= (n + 9) / 10)
    decreases rounds
  {
    hide PendingFrom, DrainRound, Conserved, DeliveredInPast;
    if rounds > 0 {
      RoundTakesTen(g, consumer);
      DrainTakesExactlyCeilRounds(DrainRound(g, consumer), consumer, rounds - 1);
    } else {
      NonePending(g);
    }
  }

  /** The same for the stream that any commands of any workers leave behind. */
  lemma DrainAfterAnyRun<Task>(cs: seq<Command<Task>>, consumer: string, rounds: nat)
    ensures var g := After(Create<Task>(), cs);
            var n := |PendingFrom(g, 0)|;
            && (forall id :: id in PendingFrom(g, 0) <==> id in g.pending)
            && (Drain(g, consumer, rounds).pending == map[] <==> rounds >= (n + 9) / 10)
  {
    var g := After(Create<Task>(), cs);
    ConservationHolds(Create<Task>(), cs);
    DatesHold(Create<Task>(), cs);
    PendingFromLists(g, 0);
    DrainTakesExactlyCeilRounds(g, consumer, rounds);
  }

  lemma NonePending<Task>(g: Group<Task>)
    requires Conserved(g)
    ensures g.pending == map[] <==> PendingFrom(g, 0) == []
  {
    PendingFromLists(g, 0);
    forall id | id in g.pending ensures id in PendingFrom(g, 0) { assert id in g.pending; }
    if PendingFrom(g, 0) != [] { assert PendingFrom(g, 0)[0] in g.pending; }
  }
}
