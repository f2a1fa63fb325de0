/** The agents of a replay: how they come to be, and where they stand in the end. */
module ReplayWorld {
  import opened Octets
  import opened JsonText
  import opened Messages
  import opened AgentRegistry
  import opened AgentHistory
  import opened Trace
  import opened Ordering
  import opened ReplayContent
  import opened Replay

  // ---------- making the nodes ----------

  /** One node for each of the first `max` ids of the walk; with fewer ids the walk is read past its end. */
  function NodesMade(w: World, order: seq<Bytes>, max: nat): Option<World> {
    if max <= |order| then Some(AddAgents(w, order[..max])) else None
  }

  /** Make `max` nodes and give them to the agents in the order of their ids. The result is false when
      the ids run out. */
  method CreateNodes(protocol: Bytes, agents: set<Bytes>, max: nat, registry: Registry)
      returns (r: Result<bool>, ghost order: seq<Bytes>)
    modifies registry
    ensures Walks(order, agents, LexLess) && |order| == |agents|
    ensures r.Ok? <==> protocol == "80211b" || protocol == "80211p"
    ensures r.Raised? ==> r.why == UnknownProtocol && registry.View() == old(registry.View())
    ensures r.Ok? ==> (r.value <==> NodesMade(old(registry.View()), order, max).Some?)
    ensures r == Ok(true) ==> NodesMade(old(registry.View()), order, max) == Some(registry.View())
  {
    var walk := WalkIds(agents);
    order := walk;
    LexStrictTotal();
    WalkLength(order, agents, LexLess);
    if protocol != "80211b" && protocol != "80211p" {
      return Raised(UnknownProtocol), order;
    }
    var made := AddNodes(walk, max, registry);
    r := Ok(made);
  }

  method AddNodes(walk: seq<Bytes>, max: nat, registry: Registry) returns (made: bool)
    modifies registry
    ensures made <==> max <= |walk|
    ensures made ==> registry.View() == AddAgents(old(registry.View()), walk[..max])
  {
    var i := 0;
    while i != max
      invariant 0 <= i <= max && i <= |walk|
      invariant registry.View() == AddAgents(old(registry.View()), walk[..i])
      decreases max - i
    {
      if i >= |walk| {
        return false;
      }
      registry.Insert(walk[i]);
      AddedNext(old(registry.View()), walk, i);
      i := i + 1;
    }
    made := true;
  }

  lemma {:induction false} AddAgentsAppend(w: World, a: seq<Bytes>, id: Bytes)
    ensures AddAgents(w, a + [id]) == AddAgent(AddAgents(w, a), id)
    decreases |a|
  {
    if a == [] {
      assert a + [id] == [id] && [id][1..] == [];
    } else {
      assert (a + [id])[1..] == a[1..] + [id];
      AddAgentsAppend(AddAgent(w, a[0]), a[1..], id);
    }
  }

  lemma AddedNext(w: World, ids: seq<Bytes>, i: nat)
    requires i < |ids|
    ensures AddAgents(w, ids[..i + 1]) == AddAgent(AddAgents(w, ids[..i]), ids[i])
  {
    assert ids[..i + 1] == ids[..i] + [ids[i]];
    AddAgentsAppend(w, ids[..i], ids[i]);
  }

  lemma {:induction false} FollowAdded(f: Fate, ids: seq<Bytes>, id: Bytes)
    requires f == Absent || f == Alive(None)
    ensures Follow(f, Repeat(ids, id, Added)) == if id in ids then Alive(None) else f
    decreases |ids|
  {
    if ids != [] {
      HeadStep(f, ids, id, Added);
      FollowAdded(if ids[0] == id then Alive(None) else f, ids[1..], id);
      assert id in ids <==> id == ids[0] || id in ids[1..];
    }
  }

  /** A new agent is live, without a position. */
  lemma MadeAlive(w: World, ids: seq<Bytes>, id: Bytes)
    requires id in ids && FateOf(w, id) == Absent
    ensures FateOf(AddAgents(w, ids), id) == Alive(None)
  {
    AddsFollow(w, ids, id);
    FollowAdded(Absent, ids, id);
  }

  // ---------- where an agent stands ----------

  /** The latest position that a list of commands gives an id. */
  function LastMove(cs: seq<Command>, id: Bytes): Option<DPoint> {
    if cs == [] then None
    else
      var c := cs[|cs| - 1];
      if c.Locations? && id in c.places then Some(c.places[id]) else LastMove(cs[..|cs| - 1], id)
  }

  function Later(q: Option<DPoint>, p: Option<DPoint>): Option<DPoint> {
    if q.Some? then q else p
  }

  lemma {:induction false} LookedStays(p: Option<DPoint>, ids: seq<Bytes>, id: Bytes)
    ensures Follow(Alive(p), Repeat(ids, id, Looked)) == Alive(p)
  {
    if ids != [] {
      HeadStep(Alive(p), ids, id, Looked);
      LookedStays(p, ids[1..], id);
    }
  }

  /** A location update moves a live agent it names, and nothing else a replay does moves any. */
  lemma HarmlessMoves(w: World, c: Command, id: Bytes, p: Option<DPoint>)
    requires Harmless(c) && FateOf(w, id) == Alive(p)
    ensures Apply(w, c).Ok?
    ensures FateOf(Apply(w, c).value, id)
      == Alive(if c.Locations? && id in c.places then Some(c.places[id]) else p)
  {
    if c.Send? {
      CommandFollows(w, c, id);
      var rest := if Live(w, c.send.fromId) then Repeat(c.send.toIds, id, Looked) else [];
      FollowAppend(Alive(p), Repeat([c.send.fromId], id, Looked), rest);
      LookedStays(p, [c.send.fromId], id);
      LookedStays(p, c.send.toIds, id);
    }
  }

  /** After any commands of a replay a live agent is still live, at the latest position they gave it. */
  lemma {:induction false} StandsAt(w: World, cs: seq<Command>, id: Bytes, p: Option<DPoint>)
    requires (forall i :: 0 <= i < |cs| ==> Harmless(cs[i])) && FateOf(w, id) == Alive(p)
    ensures ApplyAll(w, cs).Ok?
    ensures FateOf(ApplyAll(w, cs).value, id) == Alive(Later(LastMove(cs, id), p))
    decreases |cs|
  {
    HarmlessAll(w, cs);
    if cs != [] {
      var before, c := cs[..|cs| - 1], cs[|cs| - 1];
      assert forall i :: 0 <= i < |before| ==> before[i] == cs[i];
      StandsAt(w, before, id, p);
      LastCommand(w, cs);
      HarmlessMoves(ApplyAll(w, before).value, c, id, Later(LastMove(before, id), p));
    }
  }

  // ---------- the moves of a list of ticks ----------

  lemma {:induction false} LastMoveAppend(a: seq<Command>, b: seq<Command>, id: Bytes)
    ensures LastMove(a + b, id) == Later(LastMove(b, id), LastMove(a, id))
    decreases |b|
  {
    if b == [] {
      assert a + b == a;
    } else {
      assert (a + b)[..|a + b| - 1] == a + b[..|b| - 1];
      LastMoveAppend(a, b[..|b| - 1], id);
    }
  }

  lemma {:induction false} SendsMoveNone(ms: seq<TickMulticast>, id: Bytes)
    ensures LastMove(Sends(ms), id) == None
  {
    if ms != [] {
      assert Sends(ms)[..|ms| - 1] == Sends(ms[..|ms| - 1]);
      SendsMoveNone(ms[..|ms| - 1], id);
    }
  }

  /** No id of the tick's places holds a NUL. */
  predicate NulFreePlaces(tick: TimeTick) {
    forall id :: id in tick.updateAgent ==> NulFreeText(id)
  }

  function PlaceIn(tick: TimeTick, id: Bytes): Option<DPoint> {
    if id in tick.updateAgent then Some(tick.updateAgent[id]) else None
  }

  lemma TickMoves(s: Step, id: Bytes)
    requires Tickable(s.order, s.tick) && NulFreePlaces(s.tick)
    ensures LastMove(TickCommands(s.order, s.tick), id) == PlaceIn(s.tick, id)
  {
    var ms := ClipCasts(s.tick.multicast);
    EmptyWalk(s.order, s.tick.updateAgent);
    MovesKept(s.order, s.tick.updateAgent);
    SendsMoveNone(ms, id);
    var moves := if s.order == [] then [] else [Moves(s.order, s.tick.updateAgent)];
    LastMoveAppend(moves, Sends(ms), id);
    assert moves != [] ==> moves[..0] == [];
  }

  /** An id's place in the latest of the ticks that have one for it. */
  function LastPlace(ss: seq<Step>, id: Bytes): Option<DPoint> {
    if ss == [] then None else Later(PlaceIn(ss[|ss| - 1].tick, id), LastPlace(ss[..|ss| - 1], id))
  }

  lemma {:induction false} StepsMove(ss: seq<Step>, id: Bytes)
    requires forall i :: 0 <= i < |ss| ==> Tickable(ss[i].order, ss[i].tick)
    requires forall i :: 0 <= i < |ss| ==> NulFreePlaces(ss[i].tick)
    ensures LastMove(CommandsOver(ss), id) == LastPlace(ss, id)
  {
    if ss != [] {
      var init, last := ss[..|ss| - 1], ss[|ss| - 1];
      assert Tickable(last.order, last.tick) && NulFreePlaces(last.tick);
      assert forall i :: 0 <= i < |init| ==> init[i] == ss[i];
      StepsMove(init, id);
      TickMoves(last, id);
      LastMoveAppend(CommandsOver(init), TickCommands(last.order, last.tick), id);
    }
  }

  /** After the commands of any ticks, an agent that was made stands where the latest tick that
      names it puts it. */
  lemma MadeStandsAt(w: World, ids: seq<Bytes>, ss: seq<Step>, id: Bytes)
    requires id in ids && FateOf(w, id) == Absent
    requires forall i :: 0 <= i < |ss| ==> Tickable(ss[i].order, ss[i].tick)
    requires forall i :: 0 <= i < |ss| ==> NulFreePlaces(ss[i].tick)
    ensures ApplyAll(AddAgents(w, ids), CommandsOver(ss)).Ok?
    ensures FateOf(ApplyAll(AddAgents(w, ids), CommandsOver(ss)).value, id) == Alive(LastPlace(ss, id))
  {
    MadeAlive(w, ids, id);
    CommandsHarmless(ss);
    StandsAt(AddAgents(w, ids), CommandsOver(ss), id, None);
    StepsMove(ss, id);
  }

  lemma {:induction false} CommandsHarmless(ss: seq<Step>)
    requires forall i :: 0 <= i < |ss| ==> Tickable(ss[i].order, ss[i].tick)
    ensures forall i :: 0 <= i < |CommandsOver(ss)| ==> Harmless(CommandsOver(ss)[i])
  {
    if ss != [] {
      var last := ss[|ss| - 1];
      assert Tickable(last.order, last.tick);
      CommandsHarmless(ss[..|ss| - 1]);
      HarmlessTick(last);
    }
  }
}
