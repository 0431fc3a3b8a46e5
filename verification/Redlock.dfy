/** The quorum lock of `RedlockClient` as a system of interleaved steps.

    Any number of clients run `acquire` and `release` against the same independent nodes.
    One action is one node operation, one clock reading, one expiry, or the passing of time;
    the actions of different calls interleave without restriction.  Times are real numbers of
    milliseconds on one clock, and the code's readings are that clock rounded down.

    A call of `acquire` is named by the token it draws, so tokens of different calls differ.
    The GET and the DEL of `_release_partial` are two actions: anything may happen between them. */
module Redlock {

  type Token = nat

  datatype Slot = Slot(node: nat, key: string)

  /** What a node stores under a key: a token, and the time before which it may not drop it. */
  datatype Entry = Entry(token: Token, expires: real)

  /** How a node operation ends for the caller.  One that raises took effect before, or never. */
  datatype Reply = Answered | RaisedDone | RaisedUndone

  datatype Phase =
    | Idle                                // top of the retry loop
    | Setting(next: nat)                  // about to SET nodes[next]; past the last: about to read the clock
    | Releasing(next: nat)                // in _release_partial, about to GET targets[next]
    | Deleting(next: nat, seen: real)     // that GET returned our token, stored until `seen`
    | Held                                // acquire returned True
    | Refused                             // acquire returned False
    | Released                            // release returned

  datatype Call = Call(
    client: nat, key: string, ttl: int, retries: nat,
    attempts: nat,            // attempts begun
    phase: Phase,
    start: real,              // when the current attempt read its start time
    acquired: seq<nat>,       // acquired_nodes of the current attempt
    targets: seq<nat>,        // the nodes _release_partial walks
    won: bool,                // acquire has returned True
    faulty: set<nat>)         // nodes on which an operation of this call raised

  datatype State = State(
    nodes: nat,
    now: real,
    store: map<Slot, Entry>,
    calls: map<Token, Call>,
    tokens: map<(nat, string), Token>)    // every client's _tokens

  datatype Action =
    | Advance(delta: real)
    | Expire(slot: Slot)
    | Begin(tok: Token, client: nat, key: string, ttl: int, retries: nat)
    | Attempt(tok: Token)
    | Set(tok: Token, reply: Reply)
    | Check(tok: Token)
    | Get(tok: Token, raised: bool)
    | Delete(tok: Token, reply: Reply)
    | Leave(tok: Token)
    | Release(client: nat, key: string)

  function Quorum(nodes: nat): nat {
    nodes / 2 + 1
  }

  function Millis(t: real): int {
    t.Floor
  }

  function Init(nodes: nat, now: real): State {
    State(nodes, now, map[], map[], map[])
  }

  predicate Enabled(s: State, a: Action) {
    match a
    case Advance(delta) => delta >= 0.0
    case Expire(slot) => slot in s.store && s.store[slot].expires <= s.now
    case Begin(tok, _, _, _, _) => tok !in s.calls
    case Attempt(tok) => tok in s.calls && s.calls[tok].phase.Idle?
    case Set(tok, _) => tok in s.calls && s.calls[tok].phase.Setting? && s.calls[tok].phase.next < s.nodes
    case Check(tok) => tok in s.calls && s.calls[tok].phase.Setting? && s.calls[tok].phase.next >= s.nodes
    case Get(tok, _) =>
      tok in s.calls && s.calls[tok].phase.Releasing? && s.calls[tok].phase.next < |s.calls[tok].targets|
    case Delete(tok, _) =>
      tok in s.calls && s.calls[tok].phase.Deleting? && s.calls[tok].phase.next < |s.calls[tok].targets|
    case Leave(tok) =>
      tok in s.calls && s.calls[tok].phase.Releasing? && s.calls[tok].phase.next >= |s.calls[tok].targets|
    case Release(_, _) => true
  }

  function WithCall(s: State, tok: Token, c: Call): State {
    s.(calls := s.calls[tok := c])
  }

  function Mark(faulty: set<nat>, node: nat, reply: Reply): set<nat> {
    if reply.Answered? then faulty else faulty + {node}
  }

  /** `SET key token NX PX ttl` on nodes[next]. */
  function AfterSet(s: State, tok: Token, reply: Reply): State
    requires Enabled(s, Set(tok, reply))
  {
    var c := s.calls[tok];
    var slot := Slot(c.phase.next, c.key);
    var free := slot !in s.store;
    var store := if free && !reply.RaisedUndone? then s.store[slot := Entry(tok, s.now + c.ttl as real)] else s.store;
    var acquired := if free && reply.Answered? then c.acquired + [c.phase.next] else c.acquired;
    WithCall(s.(store := store), tok,
             c.(acquired := acquired, faulty := Mark(c.faulty, c.phase.next, reply),
                phase := Setting(c.phase.next + 1)))
  }

  predicate Succeeds(s: State, c: Call) {
    |c.acquired| >= Quorum(s.nodes) && c.ttl - (Millis(s.now) - Millis(c.start)) > 0
  }

  /** The second clock reading and the decision. */
  function AfterCheck(s: State, tok: Token): State
    requires Enabled(s, Check(tok))
  {
    var c := s.calls[tok];
    if Succeeds(s, c) then
      WithCall(s, tok, c.(phase := Held, won := true)).(tokens := s.tokens[(c.client, c.key) := tok])
    else
      WithCall(s, tok, c.(phase := Releasing(0), targets := c.acquired))
  }

  function AfterGet(s: State, tok: Token, raised: bool): State
    requires Enabled(s, Get(tok, raised))
  {
    var c := s.calls[tok];
    var node := c.targets[c.phase.next];
    var slot := Slot(node, c.key);
    if raised then
      WithCall(s, tok, c.(phase := Releasing(c.phase.next + 1), faulty := c.faulty + {node}))
    else if slot in s.store && s.store[slot].token == tok then
      WithCall(s, tok, c.(phase := Deleting(c.phase.next, s.store[slot].expires)))
    else
      WithCall(s, tok, c.(phase := Releasing(c.phase.next + 1)))
  }

  /** DEL takes away whatever the node stores under the key by now. */
  function AfterDelete(s: State, tok: Token, reply: Reply): State
    requires Enabled(s, Delete(tok, reply))
  {
    var c := s.calls[tok];
    var node := c.targets[c.phase.next];
    var store := if reply.RaisedUndone? then s.store else s.store - {Slot(node, c.key)};
    WithCall(s.(store := store), tok,
             c.(phase := Releasing(c.phase.next + 1), faulty := Mark(c.faulty, node, reply)))
  }

  function Next(s: State, a: Action): State
    requires Enabled(s, a)
  {
    match a
    case Advance(delta) => s.(now := s.now + delta)
    case Expire(slot) => s.(store := s.store - {slot})
    case Begin(tok, client, key, ttl, retries) =>
      WithCall(s, tok, Call(client, key, ttl, retries, 0, Idle, s.now, [], [], false, {}))
    case Attempt(tok) =>
      var c := s.calls[tok];
      if c.attempts == c.retries then WithCall(s, tok, c.(phase := Refused))
      else WithCall(s, tok, c.(attempts := c.attempts + 1, start := s.now, acquired := [], phase := Setting(0)))
    case Set(tok, reply) => AfterSet(s, tok, reply)
    case Check(tok) => AfterCheck(s, tok)
    case Get(tok, raised) => AfterGet(s, tok, raised)
    case Delete(tok, reply) => AfterDelete(s, tok, reply)
    case Leave(tok) =>
      var c := s.calls[tok];
      WithCall(s, tok, c.(phase := if c.won then Released else Idle))
    case Release(client, key) =>
      if (client, key) !in s.tokens || s.tokens[(client, key)] !in s.calls then s
      else
        var tok := s.tokens[(client, key)];
        WithCall(s, tok, s.calls[tok].(phase := Releasing(0), targets := seq(s.nodes, i => i)))
          .(tokens := s.tokens - {(client, key)})
  }

  /** DEL reaches the node before the entry that the GET saw may expire. */
  predicate Timely(s: State, a: Action)
    requires Enabled(s, a)
  {
    a.Delete? ==> s.now < s.calls[a.tok].phase.seen
  }

  /** The call that an action moves, if any. */
  predicate Moves(s: State, a: Action, tok: Token) {
    match a
    case Advance(_) => false
    case Expire(_) => false
    case Release(client, key) => (client, key) in s.tokens && s.tokens[(client, key)] == tok
    case _ => a.tok == tok
  }

  predicate IsRun(s: State, run: seq<Action>)
    decreases |run|
  {
    run == [] || (Enabled(s, run[0]) && IsRun(Next(s, run[0]), run[1..]))
  }

  function Final(s: State, run: seq<Action>): State
    requires IsRun(s, run)
    decreases |run|
  {
    if run == [] then s else Final(Next(s, run[0]), run[1..])
  }

  predicate TimelyRun(s: State, run: seq<Action>)
    requires IsRun(s, run)
    decreases |run|
  {
    run == [] || (Timely(s, run[0]) && TimelyRun(Next(s, run[0]), run[1..]))
  }

  /** Where a pending DEL will take effect. */
  function Target(c: Call): Slot
    requires c.phase.Deleting? && c.phase.next < |c.targets|
  {
    Slot(c.targets[c.phase.next], c.key)
  }

  /** Where the late DELs of a run took effect, if they did. */
  function LateSlots(s: State, run: seq<Action>): set<Slot>
    requires IsRun(s, run)
    decreases |run|
  {
    if run == [] then {}
    else (if Timely(s, run[0]) then {} else {Target(s.calls[run[0].tok])}) + LateSlots(Next(s, run[0]), run[1..])
  }

  /** The same for one key. */
  function LateNodes(s: State, run: seq<Action>, key: string): set<nat>
    requires IsRun(s, run)
  {
    NodesOf(LateSlots(s, run), key)
  }

  function NodesOf(slots: set<Slot>, key: string): set<nat> {
    set slot | slot in slots && slot.key == key :: slot.node
  }

  lemma {:induction false} TimelyIsNeverLate(s: State, run: seq<Action>)
    requires IsRun(s, run)
    ensures TimelyRun(s, run) <==> LateSlots(s, run) == {}
    decreases |run|
  {
    if run != [] {
      TimelyIsNeverLate(Next(s, run[0]), run[1..]);
    }
  }

  /** An acquisition in force: True returned, release not called, and less than ttl since its attempt began. */
  predicate InForce(s: State, tok: Token) {
    tok in s.calls && s.calls[tok].phase.Held? && s.now < s.calls[tok].start + s.calls[tok].ttl as real
  }
}
