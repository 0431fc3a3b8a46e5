/** How many late DELs mutual exclusion survives: none on an odd number of nodes, one on an even number. */
module RedlockLate {
  import opened Basics
  import opened Redlock
  import opened RedlockSafety
  import opened RedlockTiming

  /** A run without late DELs. */
  predicate Prompt(s: State, run: seq<Action>) {
    IsRun(s, run) && LateSlots(s, run) == {}
  }

  lemma Then(s: State, p: seq<Action>, a: Action) returns (run: seq<Action>)
    requires Prompt(s, p) && Enabled(Final(s, p), a) && Timely(Final(s, p), a)
    ensures Prompt(s, run) && Final(s, run) == Next(Final(s, p), a)
  {
    One(Final(s, p), a);
    RunAppend(s, p, [a]);
    run := p + [a];
  }

  lemma Follow(s: State, p: seq<Action>, q: seq<Action>) returns (run: seq<Action>)
    requires Prompt(s, p) && Prompt(Final(s, p), q)
    ensures Prompt(s, run) && Final(s, run) == Final(Final(s, p), q)
  {
    RunAppend(s, p, q);
    run := p + q;
  }

  lemma Join(s: State, p: seq<Action>, mid: seq<Action>, q: seq<Action>) returns (run: seq<Action>)
    requires Prompt(s, p) && IsRun(Final(s, p), mid) && Prompt(Final(Final(s, p), mid), q)
    ensures IsRun(s, run) && Final(s, run) == Final(Final(Final(s, p), mid), q)
    ensures LateSlots(s, run) == LateSlots(Final(s, p), mid)
  {
    RunAppend(s, p, mid);
    RunAppend(s, p + mid, q);
    run := p + mid + q;
  }

  // ---- Everything expires -----------------------------------------------------------------------

  lemma LastExpiry(store: map<Slot, Entry>, slots: set<Slot>) returns (last: real)
    requires slots <= store.Keys
    ensures forall slot :: slot in slots ==> store[slot].expires <= last
    decreases slots
  {
    if slots == {} {
      last := 0.0;
    } else {
      var slot :| slot in slots;
      var rest := LastExpiry(store, slots - {slot});
      last := if store[slot].expires > rest then store[slot].expires else rest;
      forall other | other in slots ensures store[other].expires <= last {
        if other != slot { assert other in slots - {slot}; }
      }
    }
  }

  lemma ExpireAll(s: State) returns (run: seq<Action>)
    requires forall slot :: slot in s.store ==> s.store[slot].expires <= s.now
    ensures Prompt(s, run) && Final(s, run) == s.(store := map[])
    decreases s.store.Keys
  {
    if s.store == map[] {
      run := [];
    } else {
      var slot :| slot in s.store;
      One(s, Expire(slot));
      var rest := ExpireAll(Next(s, Expire(slot)));
      run := Follow(s, [Expire(slot)], rest);
    }
  }

  /** After a while the nodes store nothing any more. */
  lemma Lapse(s: State) returns (run: seq<Action>)
    ensures Prompt(s, run)
    ensures var t := Final(s, run); t == s.(now := t.now, store := map[])
  {
    var last := LastExpiry(s.store, s.store.Keys);
    var wait := Advance(if last > s.now then last - s.now else 0.0);
    One(s, wait);
    var rest := ExpireAll(Next(s, wait));
    run := Follow(s, [wait], rest);
  }

  // ---- A call acquires on chosen nodes ------------------------------------------------------------

  function Nodes(n: nat): (r: set<nat>)
    ensures |r| == n && forall x :: x in r <==> 0 <= x < n
  {
    if n == 0 then {} else Nodes(n - 1) + {n - 1}
  }

  predicate Taken(slot: Slot, key: string, want: set<nat>, j: nat) {
    slot.key == key && slot.node in want && slot.node < j
  }

  /** From `s`, call `tok` has reached node j in its first attempt, and has set the nodes of `want` before it. */
  ghost predicate Reached(s: State, t: State, tok: Token, key: string, want: set<nat>, j: nat) {
    && tok in t.calls && t == s.(calls := s.calls[tok := t.calls[tok]], store := t.store)
    && t.calls[tok] == Call(tok, key, 1, 1, 1, Setting(j), s.now, t.calls[tok].acquired, [], false, t.calls[tok].faulty)
    && Increasing(t.calls[tok].acquired, j) && (forall x :: x in t.calls[tok].acquired <==> x in want && x < j)
    && (forall slot :: slot in t.store <==> slot in s.store || Taken(slot, key, want, j))
    && (forall slot :: slot in t.store ==>
          t.store[slot] == if Taken(slot, key, want, j) then Entry(tok, s.now + 1.0) else s.store[slot])
  }

  function SetAs(tok: Token, node: nat, want: set<nat>): Action {
    Set(tok, if node in want then Answered else RaisedUndone)
  }

  lemma SetOne(s: State, t: State, tok: Token, key: string, want: set<nat>, j: nat)
    requires Reached(s, t, tok, key, want, j) && j < s.nodes
    requires j in want ==> Slot(j, key) !in s.store
    ensures Enabled(t, SetAs(tok, j, want)) && Reached(s, Next(t, SetAs(tok, j, want)), tok, key, want, j + 1)
  {
    var u := Next(t, SetAs(tok, j, want));
    if j in want {
      assert u.calls[tok].acquired == t.calls[tok].acquired + [j];
    }
  }

  lemma {:induction false} SetRest(s: State, t: State, tok: Token, key: string, want: set<nat>, j: nat)
    returns (run: seq<Action>)
    requires Reached(s, t, tok, key, want, j) && j <= s.nodes
    requires forall x :: x in want ==> Slot(x, key) !in s.store
    ensures Prompt(t, run) && Reached(s, Final(t, run), tok, key, want, s.nodes)
    decreases s.nodes - j
  {
    if j == s.nodes {
      run := [];
    } else {
      var a := SetAs(tok, j, want);
      SetOne(s, t, tok, key, want, j);
      One(t, a);
      var rest := SetRest(s, Next(t, a), tok, key, want, j + 1);
      run := Follow(t, [a], rest);
    }
  }

  /** `tok` holds the key, in force, with an entry on each node of `want`; nothing else has changed since `s`. */
  ghost predicate Acquired(s: State, t: State, tok: Token, key: string, want: set<nat>) {
    && t.nodes == s.nodes && t.now == s.now
    && tok in t.calls && InForce(t, tok) && t.calls[tok].key == key && t.calls[tok].client == tok
    && (forall other :: other != tok ==> (other in t.calls <==> other in s.calls))
    && (forall other :: other != tok && other in s.calls ==> t.calls[other] == s.calls[other])
    && t.tokens == s.tokens[(tok, key) := tok]
    && (forall slot :: slot in t.store <==> slot in s.store || (slot.key == key && slot.node in want))
    && (forall x :: x in want ==> t.store[Slot(x, key)] == Entry(tok, s.now + 1.0))
  }

  lemma AcquireOn(s: State, tok: Token, key: string, want: set<nat>) returns (run: seq<Action>)
    requires tok !in s.calls && |want| >= Quorum(s.nodes)
    requires forall x :: x in want ==> x < s.nodes && Slot(x, key) !in s.store
    ensures Prompt(s, run) && Acquired(s, Final(s, run), tok, key, want)
  {
    One(s, Begin(tok, tok, key, 1, 1));
    run := Then(s, [Begin(tok, tok, key, 1, 1)], Attempt(tok));
    var t := Final(s, run);
    assert t.calls[tok] == Call(tok, key, 1, 1, 1, Setting(0), s.now, [], [], false, {});
    var sets := SetRest(s, t, tok, key, want, 0);
    run := Follow(s, run, sets);
    var u := Final(s, run);
    var c := u.calls[tok];
    assert ToSet(c.acquired) == want;
    IncreasingSize(c.acquired, s.nodes);
    run := Then(s, run, Check(tok));
    Taking(s, u, tok, key, want);
  }

  lemma Taking(s: State, u: State, tok: Token, key: string, want: set<nat>)
    requires Reached(s, u, tok, key, want, s.nodes) && Enabled(u, Check(tok)) && Succeeds(u, u.calls[tok])
    requires forall x :: x in want ==> x < s.nodes
    ensures Acquired(s, Next(u, Check(tok)), tok, key, want)
  {
    forall x | x in want ensures u.store[Slot(x, key)] == Entry(tok, s.now + 1.0) {
      assert Taken(Slot(x, key), key, want, s.nodes);
    }
  }

  // ---- Pending DELs take effect --------------------------------------------------------------------

  /** Calls that each have a DEL for this key pending, on different nodes. */
  ghost predicate Pending(s: State, key: string, toks: seq<Token>) {
    && (forall i :: 0 <= i < |toks| ==>
          && Enabled(s, Delete(toks[i], Answered)) && s.calls[toks[i]].key == key
          && Target(s.calls[toks[i]]).node < s.nodes)
    && (forall i, j :: 0 <= i < j < |toks| ==> Target(s.calls[toks[i]]) != Target(s.calls[toks[j]]))
  }

  ghost function Targets(s: State, key: string, toks: seq<Token>): set<nat>
    requires Pending(s, key, toks)
  {
    set i | 0 <= i < |toks| :: Target(s.calls[toks[i]]).node
  }

  lemma {:induction false} TargetsSize(s: State, key: string, toks: seq<Token>)
    requires Pending(s, key, toks)
    ensures |Targets(s, key, toks)| == |toks|
  {
    if toks != [] {
      var rest, x := toks[..|toks| - 1], Target(s.calls[toks[|toks| - 1]]).node;
      TargetsSize(s, key, rest);
      assert Targets(s, key, toks) == Targets(s, key, rest) + {x};
      assert x !in Targets(s, key, rest) by {
        forall i | 0 <= i < |rest| ensures Target(s.calls[rest[i]]).node != x {
          assert Target(s.calls[toks[i]]) != Target(s.calls[toks[|toks| - 1]]);
        }
      }
    }
  }

  function Deletes(toks: seq<Token>): (run: seq<Action>) {
    seq(|toks|, i requires 0 <= i < |toks| => Delete(toks[i], Answered))
  }

  /** The DELs free exactly their nodes, and hit no other slots. */
  lemma {:induction false} DeletesWork(s: State, key: string, toks: seq<Token>)
    requires Pending(s, key, toks)
    ensures IsRun(s, Deletes(toks))
    ensures NodesOf(LateSlots(s, Deletes(toks)), key) <= Targets(s, key, toks)
    ensures forall slot :: slot in LateSlots(s, Deletes(toks)) ==> slot.key == key
    ensures var t := Final(s, Deletes(toks));
            && t.nodes == s.nodes && t.now == s.now && t.calls.Keys == s.calls.Keys
            && (forall other :: other in s.calls && other !in toks ==> t.calls[other] == s.calls[other])
            && (forall slot :: slot in t.store <==>
                  slot in s.store && !(slot.key == key && slot.node in Targets(s, key, toks)))
    decreases |toks|
  {
    if toks != [] {
      var a, rest := Delete(toks[0], Answered), toks[1..];
      var t := Next(s, a);
      assert Deletes(toks) == [a] + Deletes(rest);
      assert Target(s.calls[toks[0]]).key == key;
      OthersPending(s, key, toks);
      DeletesWork(t, key, rest);
      assert Targets(s, key, toks) == Targets(t, key, rest) + {Target(s.calls[toks[0]]).node};
      assert Deletes(toks)[1..] == Deletes(rest);
    }
  }

  lemma OthersPending(s: State, key: string, toks: seq<Token>)
    requires Pending(s, key, toks) && toks != []
    ensures var t := Next(s, Delete(toks[0], Answered));
            && Pending(t, key, toks[1..])
            && forall i :: 1 <= i < |toks| ==> toks[i] != toks[0] && t.calls[toks[i]] == s.calls[toks[i]]
  {
    forall i | 1 <= i < |toks| ensures toks[i] != toks[0] {
      assert Target(s.calls[toks[0]]) != Target(s.calls[toks[i]]);
    }
  }

  // ---- As many late DELs as quorums share nodes break exclusion --------------------------------------

  lemma PartOfSize<T>(all: set<T>, n: nat) returns (part: set<T>)
    requires n <= |all|
    ensures part <= all && |part| == n
    decreases n
  {
    if n == 0 {
      part := {};
    } else {
      var rest := PartOfSize(all, n - 1);
      if all <= rest { SubsetSize(all, rest); }
      var x :| x in all && x !in rest;
      part := rest + {x};
    }
  }

  /** Two quorums that have just the given nodes in common. */
  lemma TwoQuorums(nodes: nat, shared: set<nat>) returns (p: set<nat>, q: set<nat>)
    requires nodes > 0 && |shared| == Overlap(nodes) && forall x :: x in shared ==> x < nodes
    ensures |p| == Quorum(nodes) == |q| && p * q == shared
    ensures forall x :: x in p || x in q ==> x < nodes
  {
    var all := Nodes(nodes);
    assert |all - shared| == nodes - Overlap(nodes) by {
      assert all == (all - shared) + shared;
    }
    var own := PartOfSize(all - shared, nodes - Quorum(nodes));
    p := own + shared;
    q := all - own;
    assert |q| == nodes - |own| by { assert all == q + own; }
  }

  ghost predicate BothInForce(s: State, key: string, a: Token, b: Token) {
    a != b && InForce(s, a) && InForce(s, b) && s.calls[a].key == key && s.calls[b].key == key
  }

  /** Whatever state the system is in: from DELs pending on as many nodes as two quorums may share alone (one
      DEL on an odd number of nodes, two on an even number) a run in which no other DEL is late ends with two
      acquisitions of the key in force. */
  lemma PendingDeletesBreakExclusion(s: State, key: string, toks: seq<Token>, a: Token, b: Token)
    returns (run: seq<Action>)
    requires Pending(s, key, toks) && s.nodes > 0 && |toks| == Overlap(s.nodes)
    requires a !in s.calls && b !in s.calls && a != b
    ensures IsRun(s, run) && BothInForce(Final(s, run), key, a, b)
    ensures forall slot :: slot in LateSlots(s, run) ==> slot.key == key && slot.node in Targets(s, key, toks)
  {
    hide IsRun, Final, LateSlots, Overlap;
    TargetsSize(s, key, toks);
    var p, q := TwoQuorums(s.nodes, Targets(s, key, toks));
    var before := FirstAcquires(s, key, toks, a, p);
    var t := Final(s, before);
    DeletesWork(t, key, toks);
    var u := Final(t, Deletes(toks));
    assert a !in toks && b !in u.calls;
    forall x | x in q ensures Slot(x, key) !in u.store {
      if Slot(x, key) in t.store { assert x in p * q; }
    }
    var after := AcquireOn(u, b, key, q);
    run := Join(s, before, Deletes(toks), after);
    LateOnTargets(t, key, toks);
  }

  lemma FirstAcquires(s: State, key: string, toks: seq<Token>, a: Token, p: set<nat>) returns (run: seq<Action>)
    requires Pending(s, key, toks) && a !in s.calls
    requires |p| >= Quorum(s.nodes) && forall x :: x in p ==> x < s.nodes
    ensures Prompt(s, run)
    ensures var t := Final(s, run);
            && t.nodes == s.nodes && (forall other :: other in t.calls <==> other == a || other in s.calls)
            && InForce(t, a) && t.calls[a].key == key
            && (forall slot :: slot in t.store <==> slot.key == key && slot.node in p)
            && Pending(t, key, toks) && Targets(t, key, toks) == Targets(s, key, toks)
  {
    hide Prompt, IsRun, Final, LateSlots;
    var lapse := Lapse(s);
    var first := AcquireOn(Final(s, lapse), a, key, p);
    run := Follow(s, lapse, first);
    var t := Final(s, run);
    forall i | 0 <= i < |toks| ensures t.calls[toks[i]] == s.calls[toks[i]] { }
  }

  lemma LateOnTargets(s: State, key: string, toks: seq<Token>)
    requires Pending(s, key, toks) && IsRun(s, Deletes(toks))
    ensures forall slot :: slot in LateSlots(s, Deletes(toks)) ==> slot.key == key && slot.node in Targets(s, key, toks)
  {
    DeletesWork(s, key, toks);
    forall slot | slot in LateSlots(s, Deletes(toks)) ensures slot.node in NodesOf(LateSlots(s, Deletes(toks)), key) { }
  }

  // ---- Such DELs can be pending -------------------------------------------------------------------------

  /** `tok` gets as far as the DEL on a node of its choice: it acquires everywhere, and its release skips the others. */
  lemma PendingOne(s: State, tok: Token, key: string, node: nat) returns (run: seq<Action>)
    requires s.store == map[] && tok !in s.calls && node < s.nodes
    ensures Prompt(s, run)
    ensures var t := Final(s, run);
            && t.nodes == s.nodes && (forall other :: other in t.calls <==> other == tok || other in s.calls)
            && (forall other :: other != tok && other in s.calls ==> t.calls[other] == s.calls[other])
            && Enabled(t, Delete(tok, Answered)) && Target(t.calls[tok]) == Slot(node, key)
  {
    hide Prompt, IsRun, Final, LateSlots;
    run := AcquireOn(s, tok, key, Nodes(s.nodes));
    var t := Final(s, run);
    run := Then(s, run, Release(tok, key));
    Releases(s, t, tok, key);
    var u := Final(s, run);
    var skipped := SkipTo(u, tok, node);
    run := Follow(s, run, skipped);
    var v := Final(s, run);
    Gets(v, tok, node);
    run := Then(s, run, Get(tok, false));
  }

  lemma Releases(s: State, t: State, tok: Token, key: string)
    requires Acquired(s, t, tok, key, Nodes(s.nodes))
    ensures var u := Next(t, Release(tok, key));
            && u.nodes == s.nodes && u.store == t.store && tok in u.calls
            && u.calls[tok].key == key && u.calls[tok].phase == Releasing(0)
            && |u.calls[tok].targets| == s.nodes && (forall x :: 0 <= x < s.nodes ==> u.calls[tok].targets[x] == x)
            && (forall other :: other != tok ==> (other in u.calls <==> other in s.calls))
            && (forall other :: other != tok && other in s.calls ==> u.calls[other] == s.calls[other])
            && forall x :: 0 <= x < s.nodes ==> Slot(x, key) in u.store && u.store[Slot(x, key)].token == tok
  {
  }

  lemma Gets(v: State, tok: Token, node: nat)
    requires tok in v.calls && v.calls[tok].phase == Releasing(node)
    requires node < |v.calls[tok].targets| && v.calls[tok].targets[node] == node
    requires Slot(node, v.calls[tok].key) in v.store && v.store[Slot(node, v.calls[tok].key)].token == tok
    ensures Enabled(v, Get(tok, false))
    ensures var w := Next(v, Get(tok, false));
            && w == v.(calls := v.calls[tok := w.calls[tok]])
            && Enabled(w, Delete(tok, Answered)) && Target(w.calls[tok]) == Slot(node, v.calls[tok].key)
  {
  }

  /** `_release_partial` gets past nodes that it fails to reach. */
  lemma {:induction false} SkipTo(s: State, tok: Token, node: nat) returns (run: seq<Action>)
    requires tok in s.calls && s.calls[tok].phase.Releasing?
             && s.calls[tok].phase.next <= node <= |s.calls[tok].targets|
    ensures Prompt(s, run)
    ensures var t := Final(s, run);
            && tok in t.calls && t == s.(calls := s.calls[tok := t.calls[tok]])
            && t.calls[tok] == s.calls[tok].(phase := Releasing(node), faulty := t.calls[tok].faulty)
    decreases node - s.calls[tok].phase.next
  {
    if s.calls[tok].phase.next == node {
      run := [];
    } else {
      var a := Get(tok, true);
      One(s, a);
      var rest := SkipTo(Next(s, a), tok, node);
      run := Follow(s, [a], rest);
    }
  }

  lemma PendingReachable(nodes: nat, now: real, key: string) returns (run: seq<Action>, toks: seq<Token>)
    requires nodes > 0
    ensures Prompt(Init(nodes, now), run)
    ensures var s := Final(Init(nodes, now), run);
            Pending(s, key, toks) && s.nodes == nodes && |toks| == Overlap(nodes) && 2 !in s.calls && 3 !in s.calls
  {
    var s := Init(nodes, now);
    run := PendingOne(s, 0, key, 0);
    toks := [0];
    if nodes % 2 == 0 {
      var lapse := Lapse(Final(s, run));
      run := Follow(s, run, lapse);
      var more := PendingOne(Final(s, run), 1, key, 1);
      run := Follow(s, run, more);
      toks := [0, 1];
    }
  }

  /** On any number of nodes there is a run that breaks exclusion, with late DELs on no more nodes than two quorums
      share. */
  lemma LateDeletesBreakExclusion(nodes: nat, now: real, key: string) returns (run: seq<Action>, a: Token, b: Token)
    requires nodes > 0
    ensures IsRun(Init(nodes, now), run) && BothInForce(Final(Init(nodes, now), run), key, a, b)
    ensures FewLate(Init(nodes, now), run, Overlap(nodes))
  {
    var s := Init(nodes, now);
    var start, toks := PendingReachable(nodes, now, key);
    var t := Final(s, start);
    a, b := 2, 3;
    var rest := PendingDeletesBreakExclusion(t, key, toks, a, b);
    RunAppend(s, start, rest);
    run := start + rest;
    TargetsSize(t, key, toks);
    forall k ensures |LateNodes(s, run, k)| <= Overlap(nodes) {
      SubsetSize(LateNodes(s, run, k), Targets(t, key, toks));
    }
  }

  // ---- The exact tolerance ----------------------------------------------------------------------------------

  /** For every key, late DELs took effect on at most m nodes. */
  ghost predicate FewLate(s: State, run: seq<Action>, m: nat)
    requires IsRun(s, run)
  {
    forall key :: |LateNodes(s, run, key)| <= m
  }

  ghost predicate Exclusive(s: State) {
    forall key, a, b :: !BothInForce(s, key, a, b)
  }

  ghost predicate Tolerates(nodes: nat, now: real, m: nat) {
    forall run :: IsRun(Init(nodes, now), run) && FewLate(Init(nodes, now), run, m) ==>
        Exclusive(Final(Init(nodes, now), run))
  }

  /** Mutual exclusion survives late DELs on m nodes for each key if and only if m is smaller than the number of nodes
      that any two quorums share: none on an odd number of nodes, one on an even number. */
  lemma ToleranceIsExact(nodes: nat, now: real, m: nat)
    requires nodes > 0
    ensures Tolerates(nodes, now, m) <==> m < Overlap(nodes)
  {
    var s := Init(nodes, now);
    if m < Overlap(nodes) {
      forall run | IsRun(s, run) && FewLate(s, run, m) ensures Exclusive(Final(s, run)) {
        forall key, a, b ensures !BothInForce(Final(s, run), key, a, b) {
          if BothInForce(Final(s, run), key, a, b) {
            ExclusionWithLateDeletes(nodes, now, run, a, b);
          }
        }
      }
    } else {
      var run, a, b := LateDeletesBreakExclusion(nodes, now, "k");
      assert !Exclusive(Final(s, run));
      assert FewLate(s, run, m);
    }
  }
}
