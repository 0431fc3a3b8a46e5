/** `RedlockClient` itself: the loops of `acquire` and `release`, with other clients, expiries and
    the clock free to act before every operation.  Both produce runs of the step system. */
module RedlockClient {
  import opened Redlock
  import opened RedlockSafety
  import opened RedlockTiming

  /** The actions of `turn` that can happen now and do not move the call `tok`. */
  function Others(s: State, turn: seq<Action>, tok: Token): (run: seq<Action>)
    ensures IsRun(s, run)
    ensures tok in s.calls ==> tok in Final(s, run).calls && Final(s, run).calls[tok] == s.calls[tok]
    ensures Final(s, run).nodes == s.nodes
    decreases |turn|
  {
    if turn == [] then []
    else if Enabled(s, turn[0]) && !Moves(s, turn[0], tok) && !(turn[0].Begin? && turn[0].tok == tok) then
      var rest := Others(Next(s, turn[0]), turn[1..], tok);
      assert ([turn[0]] + rest)[1..] == rest;
      [turn[0]] + rest
    else Others(s, turn[1..], tok)
  }

  /** Nobody else acts. */
  ghost predicate Quiet(turns: nat -> seq<Action>) {
    forall k :: turns(k) == []
  }

  ghost predicate AllAnswer(replies: nat -> Reply) {
    forall k :: replies(k).Answered?
  }

  /** No node stores the call's token. */
  ghost predicate Nowhere(s: State, tok: Token) {
    forall slot :: slot in s.store ==> s.store[slot].token != tok
  }

  lemma NoFaultNowhere(s: State, tok: Token)
    requires Shape(s) && tok in s.calls && s.calls[tok].faulty == {}
    requires s.calls[tok].phase.Released? || s.calls[tok].phase.Refused?
    ensures Nowhere(s, tok)
  {
    forall slot | slot in s.store ensures s.store[slot].token != tok { assert EntryShape(s, slot); }
  }

  /** How many of the first n nodes are free for the key and answer, the i-th of them with replies(first + i). */
  function Answering(s: State, key: string, replies: nat -> Reply, first: nat, n: nat): (count: nat)
    ensures count <= n
  {
    if n == 0 then 0
    else Answering(s, key, replies, first, n - 1)
         + (if Slot(n - 1, key) !in s.store && replies(first + n - 1).Answered? then 1 else 0)
  }

  lemma NoneAnswering(s: State, key: string, replies: nat -> Reply, first: nat)
    ensures Answering(s, key, replies, first, 0) == 0
  {
  }

  lemma AnsweringNext(s: State, key: string, replies: nat -> Reply, first: nat, n: nat)
    ensures Answering(s, key, replies, first, n + 1)
            == Answering(s, key, replies, first, n)
               + (if Slot(n, key) !in s.store && replies(first + n).Answered? then 1 else 0)
  {
  }

  lemma {:induction false} AllAnswering(s: State, key: string, replies: nat -> Reply, first: nat, n: nat)
    requires (forall i :: 0 <= i < n ==> Slot(i, key) !in s.store) && forall k :: replies(k).Answered?
    ensures Answering(s, key, replies, first, n) == n
  {
    if n > 0 { AllAnswering(s, key, replies, first, n - 1); }
  }

  lemma {:induction false} SameAnswers(s: State, t: State, key: string, replies: nat -> Reply, first: nat, n: nat)
    requires s.store == t.store
    ensures Answering(s, key, replies, first, n) == Answering(t, key, replies, first, n)
  {
    if n > 0 { SameAnswers(s, t, key, replies, first, n - 1); }
  }

  class RedlockClient {
    const client: nat
    const ttl: int
    const retryCount: nat
    var world: State           // nodes, clock, every call under way, every client's tokens
    ghost var history: seq<Action>
    ghost const origin: State

    ghost predicate Valid()
      reads this
    {
      Shape(origin) && IsRun(origin, history) && Final(origin, history) == world
    }

    constructor (client: nat, ttl: int, retryCount: nat, world: State)
      requires Shape(world)
      ensures Valid() && this.world == world && this.origin == world
      ensures this.client == client && this.ttl == ttl && this.retryCount == retryCount
    {
      this.client, this.ttl, this.retryCount := client, ttl, retryCount;
      this.world, this.origin, this.history := world, world, [];
    }

    /** Other parties act, then this call performs one operation. */
    method Do(turn: seq<Action>, a: Action, tok: Token)
      requires Valid() && Enabled(Final(world, Others(world, turn, tok)), a)
      modifies this`world, this`history
      ensures Valid() && world == Next(Final(old(world), Others(old(world), turn, tok)), a)
    {
      ghost var run := Others(world, turn, tok);
      RunAppend(origin, history, run);
      world := Final(world, Others(world, turn, tok));
      One(world, a);
      RunAppend(origin, history + run, [a]);
      world := Next(world, a);
      history := history + run + [a];
    }

    /** Entering `acquire`: the token is drawn. */
    method Enter(key: string, tok: Token)
      requires Valid() && tok !in world.calls
      modifies this`world, this`history
      ensures Valid() && tok in world.calls && world.nodes == old(world).nodes && world.store == old(world).store
      ensures world.calls[tok] == Call(client, key, ttl, retryCount, 0, Idle, old(world).now, [], [], false, {})
    {
      Do([], Begin(tok, client, key, ttl, retryCount), tok);
    }

    /** This client's call on `key`, with `attempts` attempts begun and not yet won. */
    predicate Mine(tok: Token, key: string, attempts: nat)
      reads this
    {
      && tok in world.calls
      && world.calls[tok].client == client && world.calls[tok].key == key && world.calls[tok].ttl == ttl
      && world.calls[tok].retries == retryCount && world.calls[tok].attempts == attempts
      && (world.calls[tok].phase.Held? || !world.calls[tok].won)
    }

    /** One SET.  Undisturbed, the node is acquired exactly when it was free and answered. */
    method SetOne(key: string, tok: Token, attempts: nat, turn: seq<Action>, reply: Reply)
      requires Valid() && Mine(tok, key, attempts) && world.calls[tok].phase.Setting?
      requires world.calls[tok].phase.next < world.nodes
      modifies this`world, this`history
      ensures Valid() && Mine(tok, key, attempts) && world.nodes == old(world).nodes
      ensures world.calls[tok].phase == Setting(old(world).calls[tok].phase.next + 1)
      ensures world.calls[tok].start == old(world).calls[tok].start
      ensures reply.Answered? ==> world.calls[tok].faulty == old(world).calls[tok].faulty
      ensures turn == [] ==>
                var slot := Slot(old(world).calls[tok].phase.next, key);
                && world.now == old(world).now
                && |world.calls[tok].acquired|
                   == |old(world).calls[tok].acquired| + (if slot !in old(world).store && reply.Answered? then 1 else 0)
                && forall other :: other != slot ==> (other in world.store <==> other in old(world).store)
    {
      hide Valid, IsRun;
      Do(turn, Set(tok, reply), tok);
    }

    /** One pass of the node loop.  Undisturbed, it acquires the nodes that are free and answer, and no time passes. */
    method SetAll(key: string, tok: Token, attempts: nat, turns: nat -> seq<Action>, replies: nat -> Reply, first: nat)
      returns (k: nat)
      requires Valid() && Mine(tok, key, attempts) && world.calls[tok].phase == Setting(0)
      requires world.calls[tok].acquired == []
      modifies this`world, this`history
      ensures Valid() && Mine(tok, key, attempts) && world.calls[tok].phase == Setting(world.nodes)
      ensures world.nodes == old(world).nodes && world.calls[tok].start == old(world).calls[tok].start
      ensures AllAnswer(replies) ==> world.calls[tok].faulty == old(world).calls[tok].faulty
      ensures Quiet(turns) ==>
                && world.now == old(world).now
                && |world.calls[tok].acquired| == Answering(old(world), key, replies, first, world.nodes)
    {
      hide Valid, Answering;
      k := first;
      var node := 0;
      NoneAnswering(world, key, replies, first);
      while node < world.nodes
        invariant Valid() && Mine(tok, key, attempts)
        invariant node <= world.nodes && world.calls[tok].phase == Setting(node)
        invariant world.nodes == old(world).nodes && world.calls[tok].start == old(world).calls[tok].start
        invariant k == first + node
        invariant AllAnswer(replies) ==> world.calls[tok].faulty == old(world).calls[tok].faulty
        invariant Quiet(turns) ==>
                    && world.now == old(world).now
                    && |world.calls[tok].acquired| == Answering(old(world), key, replies, first, node)
                    && forall i :: node <= i ==> (Slot(i, key) in world.store <==> Slot(i, key) in old(world).store)
        decreases world.nodes - node
      {
        AnsweringNext(old(world), key, replies, first, node);
        SetOne(key, tok, attempts, turns(k), replies(k));
        k, node := k + 1, node + 1;
      }
    }

    /** One attempt: the lock is held, or its partial locks have been released again.  Undisturbed, it is held exactly
        when a quorum of free nodes answers and ttl is positive. */
    method TryOnce(key: string, tok: Token, attempts: nat, turns: nat -> seq<Action>, replies: nat -> Reply, first: nat)
      returns (held: bool, k: nat)
      requires Valid() && Mine(tok, key, attempts) && world.calls[tok].phase.Idle? && attempts < retryCount
      modifies this`world, this`history
      ensures Valid() && Mine(tok, key, attempts + 1)
      ensures world.calls[tok].phase == if held then Held else Idle
      ensures held ==> (client, key) in world.tokens && world.tokens[(client, key)] == tok
      ensures AllAnswer(replies) ==> world.calls[tok].faulty == old(world).calls[tok].faulty
      ensures Quiet(turns) ==>
                (held <==> ttl > 0 && Answering(old(world), key, replies, first + 1, old(world).nodes)
                                      >= Quorum(old(world).nodes))
    {
      hide Valid, Answering;
      StartAttempt(key, tok, attempts, turns(first));
      if Quiet(turns) { SameAnswers(old(world), world, key, replies, first + 1, world.nodes); }
      k := SetAll(key, tok, attempts + 1, turns, replies, first + 1);
      held := Decide(key, tok, attempts + 1, turns(k));
      k := k + 1;
      if held {
        return;
      }
      k := ReleasePartial(tok, turns, replies, k);
      Do(turns(k), Leave(tok), tok);
      k := k + 1;
    }

    /** The start time is read anew for each attempt. */
    method StartAttempt(key: string, tok: Token, attempts: nat, turn: seq<Action>)
      requires Valid() && Mine(tok, key, attempts) && world.calls[tok].phase.Idle? && attempts < retryCount
      modifies this`world, this`history
      ensures Valid() && Mine(tok, key, attempts + 1) && world.nodes == old(world).nodes
      ensures world.calls[tok].phase == Setting(0) && world.calls[tok].acquired == []
      ensures world.calls[tok].start == world.now && world.calls[tok].faulty == old(world).calls[tok].faulty
      ensures turn == [] ==> world.now == old(world).now && world.store == old(world).store
    {
      hide Valid, IsRun;
      Do(turn, Attempt(tok), tok);
    }

    /** The second clock reading. */
    method Decide(key: string, tok: Token, attempts: nat, turn: seq<Action>) returns (held: bool)
      requires Valid() && Mine(tok, key, attempts) && world.calls[tok].phase == Setting(world.nodes)
      modifies this`world, this`history
      ensures Valid() && Mine(tok, key, attempts)
      ensures world.calls[tok].phase == if held then Held else Releasing(0)
      ensures world.calls[tok].faulty == old(world).calls[tok].faulty
      ensures held ==> (client, key) in world.tokens && world.tokens[(client, key)] == tok
      ensures turn == [] && old(world).calls[tok].start == old(world).now ==>
                (held <==> ttl > 0 && |old(world).calls[tok].acquired| >= Quorum(old(world).nodes))
    {
      hide Valid, IsRun;
      Do(turn, Check(tok), tok);
      held := world.calls[tok].phase.Held?;
    }

    /** `turns(k)` and `replies(k)` are what the others do before, and what the node answers to, the k-th operation. */
    method Acquire(key: string, tok: Token, turns: nat -> seq<Action>, replies: nat -> Reply) returns (held: bool)
      requires Valid() && tok !in world.calls
      modifies this`world, this`history
      ensures Valid() && tok in world.calls
      ensures world.calls[tok].phase == if held then Held else Refused
      ensures held ==> (client, key) in world.tokens && world.tokens[(client, key)] == tok
      ensures Quiet(turns) && ttl > 0 && retryCount > 0
              && Answering(old(world), key, replies, 1, old(world).nodes) >= Quorum(old(world).nodes)
              ==> held
      ensures AllAnswer(replies) && !held ==> Nowhere(world, tok)
    {
      var k := 0;
      Enter(key, tok);
      SameAnswers(old(world), world, key, replies, 1, world.nodes);
      for attempt := 0 to retryCount
        invariant Valid() && Mine(tok, key, attempt) && world.calls[tok].phase.Idle?
        invariant AllAnswer(replies) ==> world.calls[tok].faulty == {}
        invariant Quiet(turns) && ttl > 0
                  && Answering(old(world), key, replies, 1, old(world).nodes) >= Quorum(old(world).nodes) ==>
                    attempt == 0 && k == 0 && world.nodes == old(world).nodes
                    && Answering(world, key, replies, 1, world.nodes) >= Quorum(world.nodes)
      {
        held, k := TryOnce(key, tok, attempt, turns, replies, k);
        if held {
          return;
        }
      }
      GiveUp(key, tok, turns(k));
      ShapeRun(origin, history);
      if AllAnswer(replies) { NoFaultNowhere(world, tok); }
      return false;
    }

    /** After the last attempt. */
    method GiveUp(key: string, tok: Token, turn: seq<Action>)
      requires Valid() && Mine(tok, key, retryCount) && world.calls[tok].phase.Idle?
      modifies this`world, this`history
      ensures Valid() && tok in world.calls && world.calls[tok].phase.Refused?
      ensures world.calls[tok].faulty == old(world).calls[tok].faulty
    {
      hide Valid, IsRun;
      Do(turn, Attempt(tok), tok);
    }

    /** One target: GET, and DEL if it still stores the token. */
    method ReleaseOne(tok: Token, turns: nat -> seq<Action>, replies: nat -> Reply, first: nat) returns (k: nat)
      requires Valid() && tok in world.calls && world.calls[tok].phase.Releasing?
      requires world.calls[tok].phase.next < |world.calls[tok].targets|
      modifies this`world, this`history
      ensures Valid() && tok in world.calls
      ensures var c, c' := old(world).calls[tok], world.calls[tok];
              c' == c.(phase := Releasing(c.phase.next + 1), faulty := c'.faulty)
      ensures AllAnswer(replies) ==> world.calls[tok].faulty == old(world).calls[tok].faulty
    {
      hide Valid, IsRun, Final, Others;
      k := first + 1;
      Do(turns(first), Get(tok, !replies(first).Answered?), tok);
      if world.calls[tok].phase.Deleting? {
        Do(turns(k), Delete(tok, replies(k)), tok);
        k := k + 1;
      }
    }

    /** `_release_partial`: every target is visited once, whatever the nodes answer. */
    method ReleasePartial(tok: Token, turns: nat -> seq<Action>, replies: nat -> Reply, first: nat) returns (k: nat)
      requires Valid() && tok in world.calls && world.calls[tok].phase == Releasing(0)
      modifies this`world, this`history
      ensures Valid() && tok in world.calls
      ensures world.calls[tok].phase == Releasing(|world.calls[tok].targets|)
      ensures var c, c' := old(world).calls[tok], world.calls[tok];
              c' == c.(phase := Releasing(|c.targets|), faulty := c'.faulty)
      ensures AllAnswer(replies) ==> world.calls[tok].faulty == old(world).calls[tok].faulty
    {
      hide Valid;
      k := first;
      var j := 0;
      ghost var c := world.calls[tok];
      while j < |world.calls[tok].targets|
        invariant Valid() && tok in world.calls && j <= |c.targets|
        invariant world.calls[tok] == c.(phase := Releasing(j), faulty := world.calls[tok].faulty)
        invariant AllAnswer(replies) ==> world.calls[tok].faulty == c.faulty
        decreases |c.targets| - j
      {
        k := ReleaseOne(tok, turns, replies, k);
        j := j + 1;
      }
    }

    /** `release`: returns at once without a stored token, else clears it from every node. */
    method ReleaseLock(key: string, turns: nat -> seq<Action>, replies: nat -> Reply)
      requires Valid()
      modifies this`world, this`history
      ensures Valid()
      ensures (client, key) in old(world).tokens ==> old(world).tokens[(client, key)] in old(world).calls
      ensures (client, key) !in old(world).tokens ==> world == old(world)
      ensures (client, key) in old(world).tokens ==>
                var tok := old(world).tokens[(client, key)];
                tok in world.calls && world.calls[tok].phase.Released?
                && world.calls[tok].targets == seq(old(world).nodes, i => i)
                && (AllAnswer(replies) && old(world).calls[tok].faulty == {} ==> Nowhere(world, tok))
    {
      if (client, key) !in world.tokens {
        return;
      }
      var tok := world.tokens[(client, key)];
      ShapeRun(origin, history);
      assert HeldUnder(world.calls[tok], (client, key)) && CallShape(world, tok);
      Do([], Release(client, key), tok);
      var k := ReleasePartial(tok, turns, replies, 0);
      FinishRelease(tok, turns(k));
      ShapeRun(origin, history);
      if AllAnswer(replies) && world.calls[tok].faulty == {} { NoFaultNowhere(world, tok); }
    }

    method FinishRelease(tok: Token, turn: seq<Action>)
      requires Valid() && tok in world.calls && world.calls[tok].won
      requires world.calls[tok].phase == Releasing(|world.calls[tok].targets|)
      modifies this`world, this`history
      ensures Valid() && tok in world.calls && world.calls[tok] == old(world).calls[tok].(phase := Released)
    {
      hide Valid, IsRun;
      Do(turn, Leave(tok), tok);
    }
  }
}
