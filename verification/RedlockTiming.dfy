/** How far the safety of the quorum lock depends on when a DEL takes effect. */
module RedlockTiming {
  import opened Redlock
  import opened RedlockSafety

  lemma {:induction false} RunAppend(s: State, p: seq<Action>, q: seq<Action>)
    requires IsRun(s, p) && IsRun(Final(s, p), q)
    ensures IsRun(s, p + q) && Final(s, p + q) == Final(Final(s, p), q)
    ensures LateSlots(s, p + q) == LateSlots(s, p) + LateSlots(Final(s, p), q)
    decreases |p|
  {
    if p == [] {
      assert p + q == q;
    } else {
      RunAppend(Next(s, p[0]), p[1..], q);
      assert (p + q)[0] == p[0] && (p + q)[1..] == p[1..] + q;
    }
  }

  lemma One(s: State, a: Action)
    requires Enabled(s, a)
    ensures IsRun(s, [a]) && Final(s, [a]) == Next(s, a)
  {
  }

  // ---- The exact condition for one DEL --------------------------------------------------------

  /** What the other calls and the nodes can do at this moment: a timely run in which `tok` takes no step
      and no time passes. */
  predicate IsMeanwhile(s: State, run: seq<Action>, tok: Token)
    decreases |run|
  {
    run == [] || (Enabled(s, run[0]) && Timely(s, run[0]) && !Moves(s, run[0], tok) && !run[0].Advance?
                  && IsMeanwhile(Next(s, run[0]), run[1..], tok))
  }

  ghost predicate TargetIsForeign(s: State, slot: Slot, tok: Token) {
    slot in s.store && s.store[slot].token != tok
  }

  lemma {:induction false} KeepsMeanwhile(s: State, run: seq<Action>, slot: Slot, tok: Token, limit: real,
                                          lost: set<Slot>)
    requires Shape(s) && Safe(s, lost) && slot !in lost && IsMeanwhile(s, run, tok)
    requires s.now < limit && Keeps(s, slot, tok, limit) && tok in s.calls
    ensures IsRun(s, run)
    ensures !TargetIsForeign(Final(s, run), slot, tok)
    decreases |run|
  {
    if run != [] {
      KeepsStep(s, run[0], slot, tok, limit, lost);
      ShapeStep(s, run[0]);
      SafeStep(s, run[0], lost);
      KeepsMeanwhile(Next(s, run[0]), run[1..], slot, tok, limit, lost);
    }
  }

  /** Another client walks past nodes it fails to reach, up to node `m`. */
  lemma {:induction false} WalkTo(s: State, other: Token, m: nat, tok: Token) returns (run: seq<Action>)
    requires tok != other && other in s.calls && s.calls[other].phase.Setting?
    requires s.calls[other].phase.next <= m < s.nodes
    ensures IsMeanwhile(s, run, tok) && IsRun(s, run)
    ensures var s' := Final(s, run);
            && s'.nodes == s.nodes && s'.store == s.store && other in s'.calls
            && s'.calls[other].phase == Setting(m) && s'.calls[other].key == s.calls[other].key
    decreases m - s.calls[other].phase.next
  {
    if s.calls[other].phase.next == m {
      run := [];
    } else {
      var a := Set(other, RaisedUndone);
      var rest := WalkTo(Next(s, a), other, m, tok);
      run := [a] + rest;
    }
  }

  lemma MeanwhileCons(s: State, a: Action, rest: seq<Action>, tok: Token)
    requires Enabled(s, a) && Timely(s, a) && !Moves(s, a, tok) && !a.Advance?
    requires IsMeanwhile(Next(s, a), rest, tok) && IsRun(Next(s, a), rest)
    ensures IsMeanwhile(s, [a] + rest, tok) && IsRun(s, [a] + rest)
    ensures Final(s, [a] + rest) == Final(Next(s, a), rest)
  {
  }

  lemma {:induction false} MeanwhileSnoc(s: State, run: seq<Action>, a: Action, tok: Token)
    requires IsMeanwhile(s, run, tok) && IsRun(s, run)
    requires Enabled(Final(s, run), a) && Timely(Final(s, run), a) && !Moves(Final(s, run), a, tok) && !a.Advance?
    ensures IsMeanwhile(s, run + [a], tok) && IsRun(s, run + [a])
    ensures Final(s, run + [a]) == Next(Final(s, run), a)
    decreases |run|
  {
    if run == [] {
      assert run + [a] == [a] + [];
      MeanwhileCons(s, a, [], tok);
    } else {
      MeanwhileSnoc(Next(s, run[0]), run[1..], a, tok);
      assert run + [a] == [run[0]] + (run[1..] + [a]);
    }
  }

  /** Once the slot is free, another client can fill it before `tok` moves. */
  lemma TakeOver(s: State, slot: Slot, tok: Token, other: Token) returns (run: seq<Action>)
    requires tok in s.calls && other !in s.calls && slot !in s.store && slot.node < s.nodes
    ensures IsMeanwhile(s, run, tok) && IsRun(s, run)
    ensures TargetIsForeign(Final(s, run), slot, tok)
  {
    var b := Begin(other, 0, slot.key, 1, 1);
    var s1 := Next(s, b);
    var s2 := Next(s1, Attempt(other));
    var walk := WalkTo(s2, other, slot.node, tok);
    MeanwhileSnoc(s2, walk, Set(other, Answered), tok);
    MeanwhileCons(s1, Attempt(other), walk + [Set(other, Answered)], tok);
    MeanwhileCons(s, b, [Attempt(other)] + (walk + [Set(other, Answered)]), tok);
    run := [b] + ([Attempt(other)] + (walk + [Set(other, Answered)]));
  }

  /** The entry that a pending DEL would find under its own token is the one its GET saw. */
  ghost predicate SeenIsStored(s: State) {
    forall tok :: tok in s.calls && s.calls[tok].phase.Deleting? && s.calls[tok].phase.next < |s.calls[tok].targets| ==>
      var slot := Target(s.calls[tok]);
      slot in s.store && s.store[slot].token == tok ==> s.store[slot].expires == s.calls[tok].phase.seen
  }

  lemma SeenStep(s: State, a: Action)
    requires Enabled(s, a) && SeenIsStored(s)
    ensures SeenIsStored(Next(s, a))
  {
  }

  lemma {:induction false} SeenRun(s: State, run: seq<Action>)
    requires SeenIsStored(s) && IsRun(s, run)
    ensures SeenIsStored(Final(s, run))
    decreases |run|
  {
    if run != [] {
      SeenStep(s, run[0]);
      SeenRun(Next(s, run[0]), run[1..]);
    }
  }

  ghost predicate StaysClearOfOthers(s: State, tok: Token)
    requires Enabled(s, Delete(tok, Answered))
  {
    forall others :: IsMeanwhile(s, others, tok) && IsRun(s, others) ==>
      !TargetIsForeign(Final(s, others), Target(s.calls[tok]), tok)
  }

  /** A pending DEL cannot hit another call's entry now, whatever the others do at this moment, if and only if
      the entry that its GET saw has not yet reached its expiry.  This is said of every state that a run reaches
      in which no late DEL took effect on the same node for the same key. */
  lemma DeleteIsSafeExactlyBeforeExpiry(nodes: nat, now: real, run: seq<Action>, tok: Token, unused: Token)
    requires IsRun(Init(nodes, now), run)
    requires Enabled(Final(Init(nodes, now), run), Delete(tok, Answered))
    requires Target(Final(Init(nodes, now), run).calls[tok]) !in LateSlots(Init(nodes, now), run)
    requires unused !in Final(Init(nodes, now), run).calls
    ensures var s := Final(Init(nodes, now), run);
            s.now < s.calls[tok].phase.seen
            <==> StaysClearOfOthers(s, tok)
  {
    var s := Final(Init(nodes, now), run);
    var lost := LateSlots(Init(nodes, now), run);
    SafeRun(Init(nodes, now), run, lost);
    SeenRun(Init(nodes, now), run);
    assert CallShape(s, tok) && CallSafe(s, tok, lost);
    var slot := Target(s.calls[tok]);
    if s.now < s.calls[tok].phase.seen {
      forall others | IsMeanwhile(s, others, tok) && IsRun(s, others)
        ensures !TargetIsForeign(Final(s, others), slot, tok)
      {
        KeepsMeanwhile(s, others, slot, tok, s.calls[tok].phase.seen, lost);
      }
    } else {
      var others: seq<Action>;
      if slot !in s.store {
        others := TakeOver(s, slot, tok, unused);
      } else if s.store[slot].token != tok {
        others := [];
      } else {
        var rest := TakeOver(Next(s, Expire(slot)), slot, tok, unused);
        others := [Expire(slot)] + rest;
        MeanwhileCons(s, Expire(slot), rest, tok);
      }
      assert IsMeanwhile(s, others, tok) && IsRun(s, others) && TargetIsForeign(Final(s, others), slot, tok);
    }
  }
}
