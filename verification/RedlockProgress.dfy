/** What `acquire` must do: each node operation's effect, and when an attempt has to end with the lock. */
module RedlockProgress {
  import opened Redlock
  import opened RedlockSafety
  import opened RedlockTiming

  // ---- Node operations ------------------------------------------------------------------------

  /** SET NX PX: an entry that is there stays; a free node stores this token for ttl, unless the operation
      raised without taking effect.  Other slots are not touched. */
  lemma SetMeans(s: State, tok: Token, reply: Reply)
    requires Enabled(s, Set(tok, reply))
    ensures var c := s.calls[tok];
            var slot := Slot(c.phase.next, c.key);
            var t := Next(s, Set(tok, reply));
            && (forall other :: other != slot ==> (other in t.store <==> other in s.store))
            && (forall other :: other in s.store ==> other in t.store && t.store[other] == s.store[other])
            && (slot in t.store <==> slot in s.store || !reply.RaisedUndone?)
            && (slot !in s.store && slot in t.store ==>
                  t.store[slot].token == tok && t.store[slot].expires - s.now == c.ttl as real)
  {
  }

  /** GET and DEL: a DEL follows exactly when the node answered with this token, and frees just that slot, unless it
      raised without taking effect. */
  lemma GetAndDeleteMean(s: State, tok: Token, raised: bool, t: State, reply: Reply)
    requires Enabled(s, Get(tok, raised)) && Enabled(t, Delete(tok, reply))
    ensures var c := s.calls[tok];
            var slot := Slot(c.targets[c.phase.next], c.key);
            var u := Next(s, Get(tok, raised));
            && u.store == s.store
            && (u.calls[tok].phase.Deleting? <==> !raised && slot in s.store && s.store[slot].token == tok)
            && (u.calls[tok].phase.Deleting? ==> Target(u.calls[tok]) == slot)
            && (u.calls[tok].phase.Releasing? ==> u.calls[tok].phase.next == c.phase.next + 1)
    ensures var u := Next(t, Delete(tok, reply));
            && u.calls[tok].phase == Releasing(t.calls[tok].phase.next + 1)
            && (forall other :: other in u.store <==>
                  other in t.store && (other != Target(t.calls[tok]) || reply.RaisedUndone?))
            && (forall other :: other in u.store ==> u.store[other] == t.store[other])
  {
  }

  // ---- Attempts ---------------------------------------------------------------------------------

  predicate NoAttempt(q: seq<Action>, tok: Token) {
    forall i :: 0 <= i < |q| ==> q[i] != Attempt(tok)
  }

  /** The nodes that answered this call's SETs in a run and had been free. */
  function Gained(s: State, q: seq<Action>, tok: Token): seq<nat>
    requires IsRun(s, q)
    decreases |q|
  {
    if q == [] then []
    else
      (if q[0] == Set(tok, Answered) && Slot(s.calls[tok].phase.next, s.calls[tok].key) !in s.store
       then [s.calls[tok].phase.next] else [])
      + Gained(Next(s, q[0]), q[1..], tok)
  }

  lemma StepOfAttempt(s: State, a: Action, tok: Token)
    requires Enabled(s, a) && tok in s.calls && a != Attempt(tok)
    ensures var t := Next(s, a);
            && tok in t.calls && t.calls[tok].start == s.calls[tok].start
            && t.calls[tok].ttl == s.calls[tok].ttl && t.calls[tok].key == s.calls[tok].key
            && t.calls[tok].acquired == s.calls[tok].acquired + Gained(s, [a], tok)
  {
    One(s, a);
    if a == Set(tok, Answered) {
      assert [a][1..] == [];
    }
  }

  lemma {:induction false} DuringAttempt(s: State, q: seq<Action>, tok: Token)
    requires IsRun(s, q) && tok in s.calls && NoAttempt(q, tok)
    ensures var t := Final(s, q);
            && tok in t.calls && t.calls[tok].start == s.calls[tok].start
            && t.calls[tok].ttl == s.calls[tok].ttl && t.calls[tok].key == s.calls[tok].key
            && t.calls[tok].acquired == s.calls[tok].acquired + Gained(s, q, tok)
    decreases |q|
  {
    if q != [] {
      StepOfAttempt(s, q[0], tok);
      GainedCons(s, q, tok);
      hide Next, Gained, Enabled;
      var t := Next(s, q[0]);
      DuringAttempt(t, q[1..], tok);
      var first, rest := Gained(s, [q[0]], tok), Gained(t, q[1..], tok);
      assert s.calls[tok].acquired + first + rest == s.calls[tok].acquired + (first + rest);
    } else {
      assert s.calls[tok].acquired + [] == s.calls[tok].acquired;
    }
  }

  lemma GainedCons(s: State, q: seq<Action>, tok: Token)
    requires IsRun(s, q) && q != []
    ensures IsRun(s, [q[0]])
    ensures Gained(s, q, tok) == Gained(s, [q[0]], tok) + Gained(Next(s, q[0]), q[1..], tok)
  {
    One(s, q[0]);
    assert [q[0]][1..] == [];
  }

  lemma RoundingIsTight(start: real, now: real, ttl: int)
    requires now - start <= ttl as real - 1.0
    ensures ttl - (Millis(now) - Millis(start)) > 0
  {
    assert (Millis(now) - Millis(start)) as real < now - start + 1.0;
  }

  /** An attempt begun at time b, whatever happens until its clock is read again: if a quorum of free nodes answered and
      at most ttl - 1 ms have passed since b, acquire returns True; and when it does, a quorum answered and less than
      ttl has passed since b, from which the lock counts.  Time spent in earlier attempts does not matter. */
  lemma AttemptMustSucceed(nodes: nat, now: real, p: seq<Action>, tok: Token, q: seq<Action>)
    requires IsRun(Init(nodes, now), p) && Enabled(Final(Init(nodes, now), p), Attempt(tok))
    requires Final(Init(nodes, now), p).calls[tok].attempts < Final(Init(nodes, now), p).calls[tok].retries
    requires IsRun(Next(Final(Init(nodes, now), p), Attempt(tok)), q) && NoAttempt(q, tok)
    requires Enabled(Final(Next(Final(Init(nodes, now), p), Attempt(tok)), q), Check(tok))
    ensures var s := Final(Init(nodes, now), p);
            var t := Final(Next(s, Attempt(tok)), q);
            var gained := Gained(Next(s, Attempt(tok)), q, tok);
            var held := Next(t, Check(tok)).calls[tok].phase.Held?;
            var ttl := s.calls[tok].ttl as real;
            && (|gained| >= nodes / 2 + 1 && t.now - s.now <= ttl - 1.0 ==> held)
            && (held ==> |gained| >= nodes / 2 + 1 && t.now - s.now < ttl)
            && (held ==>
                  && ((s.calls[tok].client, s.calls[tok].key), tok) in Next(t, Check(tok)).tokens.Items
                  && Next(t, Check(tok)).calls[tok].start == s.now)
  {
    var s := Final(Init(nodes, now), p);
    var b := Next(s, Attempt(tok));
    var t := Final(b, q);
    DuringAttempt(b, q, tok);
    NodesStay(Init(nodes, now), p);
    NodesStay(b, q);
    ClientStays(b, q, tok);
    assert [] + Gained(b, q, tok) == Gained(b, q, tok);
    if t.now - s.now <= s.calls[tok].ttl as real - 1.0 { RoundingIsTight(s.now, t.now, s.calls[tok].ttl); }
    if Succeeds(t, t.calls[tok]) { RoundingIsSafe(s.now, t.now, s.calls[tok].ttl); }
  }

  lemma {:induction false} ClientStays(s: State, q: seq<Action>, tok: Token)
    requires IsRun(s, q) && tok in s.calls
    ensures tok in Final(s, q).calls && Final(s, q).calls[tok].client == s.calls[tok].client
    decreases |q|
  {
    if q != [] { ClientStays(Next(s, q[0]), q[1..], tok); }
  }

  predicate NotReleased(s: State, run: seq<Action>, tok: Token)
    requires IsRun(s, run)
    decreases |run|
  {
    run == [] || (!(run[0].Release? && Moves(s, run[0], tok)) && NotReleased(Next(s, run[0]), run[1..], tok))
  }

  /** An acquisition stays in force exactly until its deadline, unless it is released. */
  lemma {:induction false} InForceUntilDeadline(s: State, run: seq<Action>, tok: Token)
    requires tok in s.calls && s.calls[tok].phase.Held? && IsRun(s, run) && NotReleased(s, run, tok)
    ensures InForce(Final(s, run), tok) <==> Final(s, run).now < s.calls[tok].start + s.calls[tok].ttl as real
    decreases |run|
  {
    if run != [] {
      HeldStays(s, run[0], tok);
      InForceUntilDeadline(Next(s, run[0]), run[1..], tok);
    }
  }

  lemma HeldStays(s: State, a: Action, tok: Token)
    requires tok in s.calls && s.calls[tok].phase.Held? && Enabled(s, a) && !(a.Release? && Moves(s, a, tok))
    ensures tok in Next(s, a).calls && Next(s, a).calls[tok] == s.calls[tok]
  {
  }
}
