/** The agent registry and the message handlers that change it. */
module AgentRegistry {
  import opened Octets
  import opened JsonText
  import opened Messages

  datatype Agent = Agent(position: Option<DPoint>)

  datatype Packet = Packet(fromId: Bytes, toId: Bytes, data: Bytes)

  /** A registry entry without an agent is a null pointer left behind by a failed look-up. */
  datatype World = World(agents: map<Bytes, Option<Agent>>, packetCount: nat, sent: seq<Packet>)

  const EMPTY_WORLD := World(map[], 0, [])

  predicate Live(w: World, id: Bytes) {
    id in w.agents && w.agents[id].Some?
  }

  // ---------- registry operations ----------

  /** Looking up an absent id leaves a null entry under it. */
  function LookUp(w: World, id: Bytes): World {
    if id in w.agents then w else w.(agents := w.agents[id := None])
  }

  /** An id that already has an entry, even a null one, keeps it. */
  function AddAgent(w: World, id: Bytes): World {
    if id in w.agents then w else w.(agents := w.agents[id := Some(Agent(None))])
  }

  /** Removing an entry disposes of its agent first, which a null entry does not survive. */
  function RemoveAgent(w: World, id: Bytes): Result<World> {
    if id !in w.agents then Ok(w)
    else if w.agents[id].None? then Raised(NullAgent)
    else Ok(w.(agents := w.agents - {id}))
  }

  function AddAgents(w: World, ids: seq<Bytes>): World
    decreases |ids|
  {
    if ids == [] then w else AddAgents(AddAgent(w, ids[0]), ids[1..])
  }

  function RemoveAgents(w: World, ids: seq<Bytes>): Result<World>
    decreases |ids|
  {
    if ids == [] then Ok(w)
    else
      var v :- RemoveAgent(w, ids[0]);
      RemoveAgents(v, ids[1..])
  }

  function Moved(entry: Option<Agent>, p: DPoint): Option<Agent> {
    if entry.Some? then Some(Agent(Some(p))) else None
  }

  function Place(w: World, places: map<Bytes, DPoint>): World {
    w.(agents := map id | id in w.agents :: if id in places then Moved(w.agents[id], places[id]) else w.agents[id])
  }

  /** One recipient of a message whose sender is live. */
  function SendOne(w: World, from: Bytes, to: Bytes, data: Bytes): World {
    var v := LookUp(w, to);
    if Live(v, to) then v.(packetCount := v.packetCount + 1, sent := v.sent + [Packet(from, to, data)]) else v
  }

  function SendEach(w: World, from: Bytes, to: seq<Bytes>, data: Bytes): World
    decreases |to|
  {
    if to == [] then w else SendEach(SendOne(w, from, to[0], data), from, to[1..], data)
  }

  function Transmit(w: World, m: OpaqueSend): World {
    var v := LookUp(w, m.fromId);
    if Live(v, m.fromId) then SendEach(v, m.fromId, m.toIds, m.data) else v
  }

  function Apply(w: World, c: Command): Result<World> {
    match c
    case Agents(add, rem) => RemoveAgents(AddAgents(w, add), rem)
    case Locations(places) => Ok(Place(w, places))
    case Send(m) => Ok(Transmit(w, m))
    case Nothing => Ok(w)
  }

  function ApplyAll(w: World, cs: seq<Command>): Result<World>
    decreases |cs|
  {
    if cs == [] then Ok(w)
    else
      var v :- Apply(w, cs[0]);
      ApplyAll(v, cs[1..])
  }

  lemma {:induction false} ApplyAllAppend(w: World, a: seq<Command>, b: seq<Command>)
    ensures ApplyAll(w, a + b) == match ApplyAll(w, a) case Raised(why) => Raised(why) case Ok(v) => ApplyAll(v, b)
    decreases |a|
  {
    if a == [] {
      assert a + b == b;
    } else {
      assert (a + b)[1..] == a[1..] + b;
      match Apply(w, a[0])
      case Raised(_) =>
      case Ok(v) => ApplyAllAppend(v, a[1..], b);
    }
  }

  lemma ApplyAllOne(w: World, c: Command)
    ensures ApplyAll(w, [c]) == Apply(w, c)
  {
    assert [c][1..] == [];
    match Apply(w, c)
    case Raised(_) =>
    case Ok(v) => assert ApplyAll(v, []) == Ok(v);
  }

  /** Look the handler up by type, parse, and act. */
  function Handle(w: World, kind: Bytes, root: Json): Result<World> {
    var c :- ParseCommand(kind, root);
    Apply(w, c)
  }

  // ---------- the registry object ----------

  class Registry {
    var agents: map<Bytes, Option<Agent>>
    var packetCount: nat
    var sent: seq<Packet>

    ghost function View(): World
      reads this
    {
      World(agents, packetCount, sent)
    }

    constructor ()
      ensures View() == EMPTY_WORLD
    {
      agents, packetCount, sent := map[], 0, [];
    }

    method GetAgent(id: Bytes) returns (entry: Option<Agent>)
      modifies this
      ensures View() == LookUp(old(View()), id)
      ensures entry == agents[id]
    {
      if id !in agents {
        agents := agents[id := None];
      }
      entry := agents[id];
    }

    method Insert(id: Bytes)
      modifies this
      ensures View() == AddAgent(old(View()), id)
    {
      if id !in agents {
        agents := agents[id := Some(Agent(None))];
      }
    }

    method HandleAgentsInfo(add: seq<Bytes>, rem: seq<Bytes>) returns (r: Result<()>)
      modifies this
      ensures match Apply(old(View()), Agents(add, rem))
        case Ok(w) => r == Ok(()) && View() == w
        case Raised(why) => r == Raised(why)
    {
      ghost var goal := RemoveAgents(AddAgents(View(), add), rem);
      var i := 0;
      while i < |add|
        invariant 0 <= i <= |add|
        invariant RemoveAgents(AddAgents(View(), add[i..]), rem) == goal
      {
        Insert(add[i]);
        assert add[i..][1..] == add[i + 1..];
        i := i + 1;
      }
      i := 0;
      while i < |rem|
        invariant 0 <= i <= |rem|
        invariant RemoveAgents(View(), rem[i..]) == goal
      {
        assert rem[i..][1..] == rem[i + 1..];
        if rem[i] in agents {
          if agents[rem[i]].None? {
            return Raised(NullAgent);
          }
          agents := agents - {rem[i]};
        }
        i := i + 1;
      }
      r := Ok(());
    }

    method HandleAllLocations(places: map<Bytes, DPoint>)
      modifies this
      ensures Ok(View()) == Apply(old(View()), Locations(places))
    {
      ghost var before := View();
      var todo := places.Keys;
      ghost var done: map<Bytes, DPoint> := map[];
      while todo != {}
        invariant todo <= places.Keys
        invariant done == map id | id in places.Keys - todo :: places[id]
        invariant View() == Place(before, done)
        decreases |todo|
      {
        var id :| id in todo;
        todo := todo - {id};
        done := done[id := places[id]];
        if id in agents && agents[id].Some? {
          agents := agents[id := Some(Agent(Some(places[id])))];
        }
        assert agents == Place(before, done).agents;
      }
      assert done == places;
    }

    method HandleOpaqueSend(m: OpaqueSend)
      modifies this
      ensures Ok(View()) == Apply(old(View()), Send(m))
    {
      var sender := GetAgent(m.fromId);
      if sender.None? {
        return;
      }
      ghost var goal := SendEach(View(), m.fromId, m.toIds, m.data);
      var i := 0;
      while i < |m.toIds|
        invariant 0 <= i <= |m.toIds|
        invariant SendEach(View(), m.fromId, m.toIds[i..], m.data) == goal
      {
        assert m.toIds[i..][1..] == m.toIds[i + 1..];
        var receiver := GetAgent(m.toIds[i]);
        if receiver.Some? {
          packetCount := packetCount + 1;
          sent := sent + [Packet(m.fromId, m.toIds[i], m.data)];
        }
        i := i + 1;
      }
    }

    method HandleMessage(kind: Bytes, root: Json) returns (r: Result<()>)
      modifies this
      ensures match Handle(old(View()), kind, root)
        case Ok(w) => r == Ok(()) && View() == w
        case Raised(why) => r == Raised(why)
    {
      var c :- ParseCommand(kind, root);
      match c
      case Agents(add, rem) => r := HandleAgentsInfo(add, rem);
      case Locations(places) =>
        HandleAllLocations(places);
        r := Ok(());
      case Send(m) =>
        HandleOpaqueSend(m);
        r := Ok(());
      case Nothing => r := Ok(());
    }
  }
}
