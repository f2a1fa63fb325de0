/**
 The client against a peer of its own: the peer sends a bundle, which travels
 for a while, and sends the next only after it has read an acknowledgement for
 every bundle it sent.
 */
module LockStep {
  import opened Octets
  import opened Session
  import opened AgentRegistry
  import opened Broker
  import opened BrokerRuns

  /** `given` counts the bundles the peer has sent, `flight` holds those still under way; `heard`
      counts the client's bundles that the peer has read, `acks` the acknowledgements among them. */
  datatype System = System(client: State, given: nat, flight: seq<Frame>, heard: nat, acks: nat)

  function Start(w: World): System {
    System(Initial(w), 0, [], 0, 0)
  }

  /** The peer sends; the oldest bundle under way arrives; the client does something of its own;
      the peer reads the client's next bundle. */
  datatype Move = Give(frame: Frame) | Arrive | Act(e: Event) | Hear

  predicate MayGive(y: System) {
    y.given <= y.acks
  }

  function Next(y: System, m: Move): System {
    match m
    case Give(frame) => if MayGive(y) then y.(given := y.given + 1, flight := y.flight + [frame]) else y
    case Arrive =>
      if y.flight == [] then y
      else y.(client := Step(y.client, Receive(y.flight[0].header, y.flight[0].text)), flight := y.flight[1..])
    case Act(e) => if e.Receive? then y else y.(client := Step(y.client, e))
    case Hear =>
      if y.heard >= |y.client.sent| then y
      else y.(heard := y.heard + 1, acks := y.acks + if y.client.sent[y.heard] == TickedClient then 1 else 0)
  }

  function Moves(y: System, ms: seq<Move>): System
    decreases |ms|
  {
    if ms == [] then y else Moves(Next(y, ms[0]), ms[1..])
  }

  // ---------- the invariant ----------

  /** A running client waits exactly when it has finished a round for every delivery. */
  ghost predicate InStep(s: State) {
    s.sim == Running ==> (s.paused <==> s.calls == s.tick)
  }

  ghost predicate Counted(y: System) {
    && y.given == y.client.calls + |y.flight|
    && y.heard <= |y.client.sent| && y.acks == y.heard / 2
    && y.given <= y.acks + 1
  }

  ghost predicate Synced(w: World, y: System) {
    Inv(w, y.client) && (!y.client.sim.Crashed? ==> Counted(y) && InStep(y.client))
  }

  /** What a step of the client changes of the counters. */
  lemma StepCounts(s: State, e: Event)
    requires !Step(s, e).sim.Crashed?
    ensures !s.sim.Crashed?
    ensures Step(s, e).calls == s.calls + (if e.Receive? then 1 else 0)
    ensures s.sent <= Step(s, e).sent
  {
  }

  lemma StepInStep(s: State, e: Event)
    requires InStep(s) && !Step(s, e).sim.Crashed?
    requires e.Receive? ==> s.calls == s.tick
    requires s.calls <= s.tick + 1 && s.tick <= s.calls
    ensures InStep(Step(s, e))
  {
  }

  lemma AcksAreRounds(w: World, y: System)
    requires Synced(w, y) && !y.client.sim.Crashed?
    ensures y.acks <= y.client.tick <= y.client.calls <= y.given <= y.acks + 1
    ensures |y.client.sent| == 2 * y.client.tick
  {
  }

  lemma ClientStep(w: World, y: System, e: Event, flight: seq<Frame>)
    requires Synced(w, y)
    requires if e.Receive? then |y.flight| == |flight| + 1 else y.flight == flight
    ensures Synced(w, y.(client := Step(y.client, e), flight := flight))
  {
    StepInv(w, y.client, e);
    if !Step(y.client, e).sim.Crashed? {
      StepCounts(y.client, e);
      AcksAreRounds(w, y);
      StepInStep(y.client, e);
    }
  }

  lemma HearCounts(w: World, y: System)
    requires Synced(w, y) && !y.client.sim.Crashed? && y.heard < |y.client.sent|
    ensures y.client.sent[y.heard] == TickedClient <==> y.heard % 2 == 1
  {
    var k := y.heard / 2;
    assert y.heard == 2 * k || y.heard == 2 * k + 1;
    assert k < y.client.tick;
  }

  lemma NextSynced(w: World, y: System, m: Move)
    requires Synced(w, y)
    ensures Synced(w, Next(y, m))
  {
    match m
    case Give(_) =>
    case Arrive =>
      if y.flight != [] { ClientStep(w, y, Receive(y.flight[0].header, y.flight[0].text), y.flight[1..]); }
    case Act(e) =>
      if !e.Receive? { ClientStep(w, y, e, y.flight); }
    case Hear =>
      if !y.client.sim.Crashed? && y.heard < |y.client.sent| { HearCounts(w, y); }
  }

  lemma {:induction false} MovesSynced(w: World, y: System, ms: seq<Move>)
    requires Synced(w, y)
    ensures Synced(w, Moves(y, ms))
    decreases |ms|
  {
    if ms != [] {
      NextSynced(w, y, ms[0]);
      MovesSynced(w, Next(y, ms[0]), ms[1..]);
    }
  }

  lemma StartSynced(w: World)
    ensures Synced(w, Start(w))
  {
    InitialInv(w);
  }

  // ---------- over whole runs ----------

  /** In every run of the two, acknowledgements, rounds, deliveries and bundles sent never differ by
      more than one, and at most one bundle is under way or queued, so no two ever share a round. */
  lemma LockStepTicks(w: World, ms: seq<Move>)
    requires !Moves(Start(w), ms).client.sim.Crashed?
    ensures var y := Moves(Start(w), ms);
      && y.acks <= y.client.tick <= y.client.calls <= y.given <= y.acks + 1
      && (y.client.sim == Running ==> |y.flight| + |y.client.queue| <= 1)
  {
    StartSynced(w);
    MovesSynced(w, Start(w), ms);
    AcksAreRounds(w, Moves(Start(w), ms));
  }

  /** When the peer may send again, the client has handled everything it was sent: one round and one
      acknowledgement for each bundle, and nothing is queued or under way. */
  lemma QuietBetweenTicks(w: World, ms: seq<Move>)
    requires !Moves(Start(w), ms).client.sim.Crashed? && MayGive(Moves(Start(w), ms))
    ensures var y := Moves(Start(w), ms);
      var s := y.client;
      && y.acks == s.tick == s.calls == y.given
      && y.flight == [] && s.queue == [] && s.sim == Running && s.paused
      && s.handled == s.decoded && HandleBundles(w, s.decoded) == Ok(s.world)
  {
    StartSynced(w);
    MovesSynced(w, Start(w), ms);
    var y := Moves(Start(w), ms);
    AcksAreRounds(w, y);
    assert y.client.handled + [] == y.client.handled;
  }

  /** The two never wait for each other: while the client runs, the peer may send, or a bundle is
      under way, or the client's next turn on an open connection completes a round, or the peer has
      something to read. */
  lemma NeverStuck(w: World, ms: seq<Move>)
    requires var s := Moves(Start(w), ms).client; s.sim == Running
    ensures var y := Moves(Start(w), ms);
      var s := y.client;
      || MayGive(y)
      || y.flight != []
      || y.heard < |s.sent|
      || (!s.paused && (s.open ==> Step(s, Round).sim.Crashed? || Step(s, Round).tick == s.tick + 1))
  {
    StartSynced(w);
    MovesSynced(w, Start(w), ms);
    AcksAreRounds(w, Moves(Start(w), ms));
  }
}
