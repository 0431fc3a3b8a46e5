/** Safety of the quorum lock over whole runs. */
module RedlockSafety {
  import opened Basics
  import opened Redlock

  // ---- What holds in every run --------------------------------------------------------------

  predicate Increasing(q: seq<nat>, bound: nat) {
    && (forall i :: 0 <= i < |q| ==> q[i] < bound)
    && (forall i, j :: 0 <= i < j < |q| ==> q[i] < q[j])
  }

  /** The nodes on which a call may still have its token without one of its operations having raised. */
  predicate Accounted(c: Call, node: nat) {
    match c.phase
    case Setting(_) => node in c.acquired
    case Held => node in c.acquired
    case Releasing(j) => j <= |c.targets| && node in c.targets[j..]
    case Deleting(j, _) => j <= |c.targets| && node in c.targets[j..]
    case _ => false
  }

  ghost predicate CallShape(s: State, tok: Token)
    requires tok in s.calls
  {
    var c := s.calls[tok];
    && c.attempts <= c.retries
    && c.start <= s.now
    && Increasing(c.targets, s.nodes)
    && (c.phase.Held? || c.phase.Released? ==> c.won)
    && (c.phase.Idle? || c.phase.Setting? || c.phase.Refused? ==> !c.won)
    && (c.phase.Refused? ==> c.attempts == c.retries)
    && (c.phase.Setting? ==> c.phase.next <= s.nodes && Increasing(c.acquired, c.phase.next))
    && (c.phase.Held? ==> Increasing(c.acquired, s.nodes) && |c.acquired| >= Quorum(s.nodes))
    && (c.phase.Releasing? ==> c.phase.next <= |c.targets|)
    && (c.phase.Deleting? ==> c.phase.next < |c.targets|)
  }

  ghost predicate EntryShape(s: State, slot: Slot)
    requires slot in s.store
  {
    var tok := s.store[slot].token;
    && tok in s.calls
    && slot.node < s.nodes
    && slot.key == s.calls[tok].key
    && (slot.node !in s.calls[tok].faulty ==> Accounted(s.calls[tok], slot.node))
  }

  predicate HeldUnder(c: Call, ck: (nat, string)) {
    c.phase.Held? && (c.client, c.key) == ck
  }

  ghost predicate TokensShape(s: State) {
    forall ck :: ck in s.tokens ==> s.tokens[ck] in s.calls && HeldUnder(s.calls[s.tokens[ck]], ck)
  }

  ghost predicate Shape(s: State) {
    && (forall tok :: tok in s.calls ==> CallShape(s, tok))
    && (forall slot :: slot in s.store ==> EntryShape(s, slot))
    && TokensShape(s)
  }

  lemma OthersStay(s: State, a: Action, tok: Token)
    requires Enabled(s, a) && tok in s.calls && !Moves(s, a, tok)
    ensures tok in Next(s, a).calls && Next(s, a).calls[tok] == s.calls[tok]
  {
  }

  lemma NextClock(s: State, a: Action)
    requires Enabled(s, a)
    ensures s.now <= Next(s, a).now && Next(s, a).nodes == s.nodes
  {
  }

  lemma SameCallShape(s: State, t: State, tok: Token)
    requires tok in s.calls && tok in t.calls && t.calls[tok] == s.calls[tok]
    requires CallShape(s, tok) && s.now <= t.now && s.nodes == t.nodes
    ensures CallShape(t, tok)
  {
  }

  lemma CallShapeStep(s: State, a: Action, tok: Token)
    requires Shape(s) && Enabled(s, a) && tok in Next(s, a).calls
    ensures CallShape(Next(s, a), tok)
  {
    if tok in s.calls {
      assert CallShape(s, tok);
      hide CallShape, AfterSet, AfterCheck, AfterGet, AfterDelete;
      if !Moves(s, a, tok) {
        NextClock(s, a);
        OthersStay(s, a, tok);
        SameCallShape(s, Next(s, a), tok);
      } else if a.Set? {
        SetShape(s, tok, a.reply);
      } else if a.Release? || a.Check? {
        ReleaseShape(s, a, tok);
      } else {
        WalkShape(s, a, tok);
      }
    }
  }

  lemma SetShape(s: State, tok: Token, reply: Reply)
    requires Enabled(s, Set(tok, reply)) && CallShape(s, tok)
    ensures CallShape(AfterSet(s, tok, reply), tok)
  {
  }

  lemma ReleaseShape(s: State, a: Action, tok: Token)
    requires Shape(s) && Enabled(s, a) && tok in s.calls && Moves(s, a, tok) && (a.Release? || a.Check?)
    ensures CallShape(Next(s, a), tok)
  {
  }

  lemma WalkShape(s: State, a: Action, tok: Token)
    requires Enabled(s, a) && tok in s.calls && Moves(s, a, tok)
    requires CallShape(s, tok)
    requires a.Attempt? || a.Get? || a.Delete? || a.Leave?
    ensures CallShape(Next(s, a), tok)
  {
  }

  lemma EntryShapeStep(s: State, a: Action, slot: Slot)
    requires Shape(s) && Enabled(s, a) && slot in Next(s, a).store
    ensures EntryShape(Next(s, a), slot)
  {
    if slot in s.store && s.store[slot] == Next(s, a).store[slot] {
      var tok := s.store[slot].token;
      assert EntryShape(s, slot) && CallShape(s, tok);
      if Moves(s, a, tok) {
        OwnEntryShapeStep(s, a, slot);
      } else {
        OthersStay(s, a, tok);
      }
    } else {
      NewEntryShape(s, a, slot);
    }
  }

  /** An entry that an action puts on a node is on the call's current node, which is then accounted for. */
  lemma NewEntryShape(s: State, a: Action, slot: Slot)
    requires Enabled(s, a) && slot in Next(s, a).store
    requires !(slot in s.store && s.store[slot] == Next(s, a).store[slot])
    ensures EntryShape(Next(s, a), slot)
  {
  }

  /** The remaining targets shrink by the node just dealt with, and that node is settled or faulty. */
  lemma OwnEntryShapeStep(s: State, a: Action, slot: Slot)
    requires Shape(s) && Enabled(s, a)
    requires slot in s.store && slot in Next(s, a).store && s.store[slot] == Next(s, a).store[slot]
    requires Moves(s, a, s.store[slot].token)
    ensures EntryShape(Next(s, a), slot)
  {
    var tok := s.store[slot].token;
    if a.Get? {
      GetEntryShape(s, tok, a.raised, slot);
    } else if a.Delete? {
      DeleteEntryShape(s, tok, a.reply, slot);
    } else if a.Check? {
      assert EntryShape(s, slot) && CallShape(s, tok);
      assert s.calls[tok].acquired[0..] == s.calls[tok].acquired;
    } else if a.Release? {
      ReleaseEntryShape(s, a, slot);
    } else {
      SimpleEntryShape(s, a, slot);
    }
  }

  lemma GetEntryShape(s: State, tok: Token, raised: bool, slot: Slot)
    requires Enabled(s, Get(tok, raised))
    requires slot in s.store && s.store[slot].token == tok && EntryShape(s, slot)
    ensures EntryShape(AfterGet(s, tok, raised), slot)
  {
  }

  lemma DeleteEntryShape(s: State, tok: Token, reply: Reply, slot: Slot)
    requires Enabled(s, Delete(tok, reply))
    requires slot in s.store && s.store[slot].token == tok && EntryShape(s, slot)
    requires slot in AfterDelete(s, tok, reply).store
    ensures EntryShape(AfterDelete(s, tok, reply), slot)
  {
  }

  lemma ReleaseEntryShape(s: State, a: Action, slot: Slot)
    requires Shape(s) && Enabled(s, a) && slot in s.store
    requires a.Release? && Moves(s, a, s.store[slot].token)
    ensures EntryShape(Next(s, a), slot)
  {
    assert EntryShape(s, slot);
    var all := seq(s.nodes, i => i);
    assert slot.node == all[slot.node] && all[0..] == all;
  }

  lemma SimpleEntryShape(s: State, a: Action, slot: Slot)
    requires Shape(s) && Enabled(s, a) && slot in s.store
    requires slot in Next(s, a).store && s.store[slot] == Next(s, a).store[slot]
    requires a.Begin? || a.Attempt? || a.Set? || a.Leave?
    requires Moves(s, a, s.store[slot].token)
    ensures EntryShape(Next(s, a), slot)
  {
  }

  lemma TokensStep(s: State, a: Action)
    requires Shape(s) && Enabled(s, a)
    ensures TokensShape(Next(s, a))
  {
  }

  lemma ShapeStep(s: State, a: Action)
    requires Shape(s) && Enabled(s, a)
    ensures Shape(Next(s, a))
  {
    forall tok | tok in Next(s, a).calls ensures CallShape(Next(s, a), tok) { CallShapeStep(s, a, tok); }
    forall slot | slot in Next(s, a).store ensures EntryShape(Next(s, a), slot) { EntryShapeStep(s, a, slot); }
    TokensStep(s, a);
  }

  lemma {:induction false} ShapeRun(s: State, run: seq<Action>)
    requires Shape(s) && IsRun(s, run)
    ensures Shape(Final(s, run))
    decreases |run|
  {
    if run != [] {
      ShapeStep(s, run[0]);
      ShapeRun(Next(s, run[0]), run[1..]);
    }
  }

  // ---- What late DELs leave intact ----------------------------------------------------------

  /** The call's token stays on the node at least until `limit`. */
  predicate Keeps(s: State, slot: Slot, tok: Token, limit: real) {
    s.now < limit ==> slot in s.store && s.store[slot].token == tok && s.store[slot].expires >= limit
  }

  function Deadline(c: Call): real {
    c.start + c.ttl as real
  }

  /** Outside the slots `lost`, a call still has what it acquired, and a pending DEL what its GET saw. */
  ghost predicate CallSafe(s: State, tok: Token, lost: set<Slot>)
    requires tok in s.calls
  {
    var c := s.calls[tok];
    && (c.phase.Setting? || c.phase.Held? ==>
          forall i :: 0 <= i < |c.acquired| && Slot(c.acquired[i], c.key) !in lost ==>
            Keeps(s, Slot(c.acquired[i], c.key), tok, Deadline(c)))
    && (c.phase.Deleting? && c.phase.next < |c.targets| && Target(c) !in lost ==>
          Keeps(s, Target(c), tok, c.phase.seen))
  }

  ghost predicate Safe(s: State, lost: set<Slot>) {
    forall tok :: tok in s.calls ==> CallSafe(s, tok, lost)
  }

  /** A DEL is timely, or hits a lost slot. */
  predicate Spares(s: State, a: Action, lost: set<Slot>)
    requires Enabled(s, a)
  {
    Timely(s, a) || Target(s.calls[a.tok]) in lost
  }

  /** No such action takes a kept token away, except the DEL of the call that owns it. */
  lemma KeepsStep(s: State, a: Action, slot: Slot, tok: Token, limit: real, lost: set<Slot>)
    requires Safe(s, lost) && Enabled(s, a) && Spares(s, a, lost)
    requires Keeps(s, slot, tok, limit) && slot !in lost
    requires !(a.Delete? && a.tok == tok)
    ensures Keeps(Next(s, a), slot, tok, limit)
  {
    if a.Delete? { assert CallSafe(s, a.tok, lost); }
  }

  lemma SafeOthers(s: State, a: Action, tok: Token, lost: set<Slot>)
    requires Safe(s, lost) && Enabled(s, a) && Spares(s, a, lost)
    requires tok in s.calls && !Moves(s, a, tok)
    ensures tok in Next(s, a).calls && CallSafe(Next(s, a), tok, lost)
  {
    var c := s.calls[tok];
    OthersStay(s, a, tok);
    assert CallSafe(s, tok, lost);
    if c.phase.Setting? || c.phase.Held? {
      forall i | 0 <= i < |c.acquired| && Slot(c.acquired[i], c.key) !in lost
        ensures Keeps(Next(s, a), Slot(c.acquired[i], c.key), tok, Deadline(c))
      {
        KeepsStep(s, a, Slot(c.acquired[i], c.key), tok, Deadline(c), lost);
      }
    }
    if c.phase.Deleting? && c.phase.next < |c.targets| && Target(c) !in lost {
      KeepsStep(s, a, Target(c), tok, c.phase.seen, lost);
    }
  }

  lemma SafeSet(s: State, tok: Token, reply: Reply, lost: set<Slot>)
    requires Safe(s, lost) && Shape(s) && Enabled(s, Set(tok, reply))
    ensures CallSafe(AfterSet(s, tok, reply), tok, lost)
  {
  }

  lemma SafeOwn(s: State, a: Action, tok: Token, lost: set<Slot>)
    requires Safe(s, lost) && Enabled(s, a) && !a.Set? && tok in Next(s, a).calls
    requires tok !in s.calls || Moves(s, a, tok)
    ensures CallSafe(Next(s, a), tok, lost)
  {
    if a.Check? {
      SafeCheck(s, tok, lost);
    } else if a.Get? {
      SafeGet(s, tok, a.raised, lost);
    }
  }

  lemma SafeCheck(s: State, tok: Token, lost: set<Slot>)
    requires Safe(s, lost) && Enabled(s, Check(tok))
    ensures CallSafe(AfterCheck(s, tok), tok, lost)
  {
    assert CallSafe(s, tok, lost);
  }

  lemma SafeGet(s: State, tok: Token, raised: bool, lost: set<Slot>)
    requires Enabled(s, Get(tok, raised))
    ensures CallSafe(AfterGet(s, tok, raised), tok, lost)
  {
  }

  lemma SafeStep(s: State, a: Action, lost: set<Slot>)
    requires Shape(s) && Safe(s, lost) && Enabled(s, a) && Spares(s, a, lost)
    ensures Safe(Next(s, a), lost)
  {
    hide CallSafe, Spares, Shape, AfterCheck, AfterGet, AfterDelete;
    forall tok | tok in Next(s, a).calls ensures CallSafe(Next(s, a), tok, lost) {
      if tok in s.calls && !Moves(s, a, tok) {
        SafeOthers(s, a, tok, lost);
      } else if a.Set? {
        SafeSet(s, tok, a.reply, lost);
      } else {
        SafeOwn(s, a, tok, lost);
      }
    }
  }

  lemma {:induction false} SafeRun(s: State, run: seq<Action>, lost: set<Slot>)
    requires Shape(s) && Safe(s, lost) && IsRun(s, run) && LateSlots(s, run) <= lost
    ensures Shape(Final(s, run)) && Safe(Final(s, run), lost)
    decreases |run|
  {
    if run != [] {
      ShapeStep(s, run[0]);
      SafeStep(s, run[0], lost);
      SafeRun(Next(s, run[0]), run[1..], lost);
    }
  }

  // ---- Majorities -----------------------------------------------------------------------------

  function ToSet(q: seq<nat>): (r: set<nat>) {
    set x | x in q
  }

  lemma {:induction false} IncreasingSize(q: seq<nat>, bound: nat)
    requires Increasing(q, bound)
    ensures |ToSet(q)| == |q|
  {
    if q != [] {
      var r, x := q[..|q| - 1], q[|q| - 1];
      IncreasingSize(r, bound);
      assert x !in ToSet(r);
      hide Increasing;
      assert q == r + [x];
      assert ToSet(q) == ToSet(r) + {x};
    }
  }

  lemma {:induction false} BelowSize(t: set<nat>, bound: nat)
    requires forall x :: x in t ==> x < bound
    ensures |t| <= bound
  {
    if bound == 0 {
      assert t == {};
    } else {
      BelowSize(t - {bound - 1}, bound - 1);
      if bound - 1 !in t { assert t == t - {bound - 1}; }
    }
  }

  /** How many nodes two quorums share at least: one of an odd number of nodes, two of an even number. */
  function Overlap(nodes: nat): (k: nat)
    ensures k == if nodes % 2 == 1 then 1 else 2
  {
    2 * Quorum(nodes) - nodes
  }

  /** Two quorums share a node outside any set smaller than that. */
  lemma QuorumsMeet(p: seq<nat>, q: seq<nat>, nodes: nat, lost: set<nat>) returns (x: nat)
    requires Increasing(p, nodes) && Increasing(q, nodes)
    requires |p| >= Quorum(nodes) && |q| >= Quorum(nodes) && |lost| < Overlap(nodes)
    ensures x in p && x in q && x !in lost
  {
    IncreasingSize(p, nodes);
    IncreasingSize(q, nodes);
    BelowSize(ToSet(p) + ToSet(q), nodes);
    var shared := ToSet(p) * ToSet(q);
    assert |ToSet(p) + ToSet(q)| == |ToSet(p)| + |ToSet(q)| - |shared|;
    if shared <= lost { SubsetSize(shared, lost); }
    x :| x in shared && x !in lost;
  }

  // ---- Main results ---------------------------------------------------------------------------

  /** Two acquisitions of a key in force are the same one at the end of every run whose late DELs for that key
      are confined to fewer nodes than any two quorums share. */
  lemma ExclusionWithLateDeletes(nodes: nat, now: real, run: seq<Action>, a: Token, b: Token)
    requires IsRun(Init(nodes, now), run)
    requires InForce(Final(Init(nodes, now), run), a) && InForce(Final(Init(nodes, now), run), b)
    requires Final(Init(nodes, now), run).calls[a].key == Final(Init(nodes, now), run).calls[b].key
    requires |LateNodes(Init(nodes, now), run, Final(Init(nodes, now), run).calls[a].key)| < Overlap(nodes)
    ensures a == b
  {
    var s := Final(Init(nodes, now), run);
    var lost := LateSlots(Init(nodes, now), run);
    SafeRun(Init(nodes, now), run, lost);
    NodesStay(Init(nodes, now), run);
    assert CallShape(s, a) && CallShape(s, b) && CallSafe(s, a, lost) && CallSafe(s, b, lost);
    var key := s.calls[a].key;
    var x := QuorumsMeet(s.calls[a].acquired, s.calls[b].acquired, nodes, NodesOf(lost, key));
    var i :| 0 <= i < |s.calls[a].acquired| && s.calls[a].acquired[i] == x;
    var j :| 0 <= j < |s.calls[b].acquired| && s.calls[b].acquired[j] == x;
    assert Slot(x, key) !in lost;
    assert Keeps(s, Slot(x, key), a, Deadline(s.calls[a]));
    assert Keeps(s, Slot(x, key), b, Deadline(s.calls[b]));
  }

  lemma {:induction false} NodesStay(s: State, run: seq<Action>)
    requires IsRun(s, run)
    ensures Final(s, run).nodes == s.nodes
    decreases |run|
  {
    if run != [] {
      NodesStay(Next(s, run[0]), run[1..]);
    }
  }

  /** Mutual exclusion: at the end of any timely run, at most one acquisition of a key is in force. */
  lemma MutualExclusion(nodes: nat, now: real, run: seq<Action>, a: Token, b: Token)
    requires IsRun(Init(nodes, now), run) && TimelyRun(Init(nodes, now), run)
    requires InForce(Final(Init(nodes, now), run), a) && InForce(Final(Init(nodes, now), run), b)
    requires Final(Init(nodes, now), run).calls[a].key == Final(Init(nodes, now), run).calls[b].key
    ensures a == b
  {
    TimelyIsNeverLate(Init(nodes, now), run);
    assert LateNodes(Init(nodes, now), run, Final(Init(nodes, now), run).calls[a].key) == {};
    ExclusionWithLateDeletes(nodes, now, run, a, b);
  }

  /** Rounding both readings down never hides an overrun: the code's test implies that less than ttl has passed. */
  lemma RoundingIsSafe(start: real, now: real, ttl: int)
    requires ttl - (Millis(now) - Millis(start)) > 0
    ensures now - start < ttl as real
  {
    assert now < Millis(now) as real + 1.0;
    assert Millis(now) + 1 <= Millis(start) + ttl;
    assert (Millis(now) + 1) as real <= (Millis(start) + ttl) as real;
  }

  /** In any run: acquire returns True exactly when its test succeeds; then the lock is in force, a quorum of nodes
      was set, and each of them on which no late DEL for this key took effect stores this token until the deadline. */
  lemma TrueMeansQuorum(nodes: nat, now: real, run: seq<Action>, tok: Token)
    requires IsRun(Init(nodes, now), run)
    requires Enabled(Final(Init(nodes, now), run), Check(tok))
    ensures var s := Final(Init(nodes, now), run);
            var c := s.calls[tok];
            var s' := Next(s, Check(tok));
            && (Succeeds(s, c) <==> s'.calls[tok].phase.Held?)
            && (s'.calls[tok].phase.Held? ==>
                  && InForce(s', tok)
                  && Increasing(c.acquired, nodes) && |c.acquired| >= nodes / 2 + 1
                  && (forall node :: node in c.acquired && node !in LateNodes(Init(nodes, now), run, c.key) ==>
                        Slot(node, c.key) in s'.store && s'.store[Slot(node, c.key)].token == tok
                        && s'.store[Slot(node, c.key)].expires >= c.start + c.ttl as real))
  {
    var s := Final(Init(nodes, now), run);
    var c := s.calls[tok];
    var lost := LateSlots(Init(nodes, now), run);
    SafeRun(Init(nodes, now), run, lost);
    NodesStay(Init(nodes, now), run);
    assert CallShape(s, tok) && CallSafe(s, tok, lost);
    if Succeeds(s, c) {
      RoundingIsSafe(c.start, s.now, c.ttl);
      forall node | node in c.acquired && node !in LateNodes(Init(nodes, now), run, c.key)
        ensures Keeps(s, Slot(node, c.key), tok, Deadline(c))
      {
        var i :| 0 <= i < |c.acquired| && c.acquired[i] == node;
        assert Slot(node, c.key) !in lost;
      }
    }
  }

  /** After False, and after release, the token is on no node whose operations for this call all returned;
      False comes after exactly retry_count attempts.  This needs no assumption on timing. */
  lemma NothingLeftBehind(nodes: nat, now: real, run: seq<Action>, tok: Token)
    requires IsRun(Init(nodes, now), run)
    requires tok in Final(Init(nodes, now), run).calls
    ensures var s := Final(Init(nodes, now), run);
            var c := s.calls[tok];
            && c.attempts <= c.retries
            && (c.phase.Refused? ==> c.attempts == c.retries)
            && (c.phase.Refused? || c.phase.Released? ==>
                  forall slot :: slot in s.store && s.store[slot].token == tok ==> slot.node in c.faulty)
  {
    var s := Final(Init(nodes, now), run);
    ShapeRun(Init(nodes, now), run);
    assert CallShape(s, tok);
    forall slot | slot in s.store && s.store[slot].token == tok ensures EntryShape(s, slot) { }
  }
}
