/** From the lines of a trace file to the end of its replay. */
module ReplayRun {
  import opened Octets
  import opened JsonDoubles
  import opened Serializer
  import opened Deserializer
  import OldFormat
  import Broker
  import opened Messages
  import opened AgentRegistry
  import opened AgentHistory
  import opened Trace
  import opened TraceHistory
  import opened Ordering
  import opened ReplayContent
  import opened ReplayClock
  import opened Replay
  import opened ReplayWorld

  // ---------- the ticks of a trace, in order ----------

  predicate Before(a: nat, b: nat) {
    a < b
  }

  /** The ticks as an ordered map stores them, each with its map of places walked in order. */
  ghost predicate StepsOf(ss: seq<Step>, ticks: map<nat, TimeTick>) {
    && Walks(Times(ss), ticks.Keys, Before)
    && forall i :: 0 <= i < |ss| ==> Stands(ss[i], ticks)
  }

  /** A step is one of the ticks, with its map of places walked in order. */
  ghost predicate Stands(s: Step, ticks: map<nat, TimeTick>) {
    s.time in ticks && s.tick == ticks[s.time] && Walks(s.order, s.tick.updateAgent.Keys, LexLess)
  }

  /** A trace is replayed in the order its ticks are stored: ascending times, one per tick. */
  lemma TimesOfTrace(ss: seq<Step>, ticks: map<nat, TimeTick>)
    requires StepsOf(ss, ticks)
    ensures Increasing(Times(ss)) && |ss| == |ticks|
    ensures forall t :: t in ticks <==> exists i :: 0 <= i < |ss| && ss[i].time == t
  {
    forall i, j | 0 <= i < j < |ss| ensures Times(ss)[i] < Times(ss)[j] {
      assert Before(Times(ss)[i], Times(ss)[j]);
    }
    WalkLength(Times(ss), ticks.Keys, Before);
    forall t | t in ticks ensures exists i :: 0 <= i < |ss| && ss[i].time == t {
      assert t in Times(ss);
      var i :| 0 <= i < |Times(ss)| && Times(ss)[i] == t;
      assert ss[i].time == t;
    }
  }

  /** What reading a number returns is always a text the writer prints for a double. */
  ghost predicate ReadsDoubles(cfg: Config) {
    forall t :: cfg.toDouble(t).Some? ==> IsDoubleText(cfg.toDouble(t).value)
  }

  lemma {:induction false} LatestPrintable(cfg: Config, ls: seq<Line>, id: Bytes)
    requires ReadsDoubles(cfg) && LatestUpdate(cfg, ls, id).Some? && LatestUpdate(cfg, ls, id).value.Ok?
    ensures PrintablePoint(LatestUpdate(cfg, ls, id).value.value)
    decreases |ls|
  {
    var l := ls[|ls| - 1];
    if !(l.DataLine? && l.kind == UPDATE && l.agent == id) { LatestPrintable(cfg, ls[..|ls| - 1], id); }
  }

  ghost predicate PrintableTick(tick: TimeTick) {
    forall id :: id in tick.updateAgent ==> PrintablePoint(tick.updateAgent[id])
  }

  ghost predicate PrintableTicks(ticks: map<nat, TimeTick>) {
    forall t :: t in ticks ==> PrintableTick(ticks[t])
  }

  lemma ShownPrintable(cfg: Config, tick: TimeTick, ls: seq<Line>)
    requires ReadsDoubles(cfg) && Shows(cfg, tick, ls)
    ensures PrintableTick(tick)
  {
    forall id | id in tick.updateAgent ensures PrintablePoint(tick.updateAgent[id]) {
      LatestPrintable(cfg, ls, id);
    }
  }

  /** Every coordinate a trace stores is a text the writer prints for a double. */
  lemma StoredPrintable(cfg: Config, ls: seq<Line>)
    requires Run(cfg, ls).Ok? && ReadsDoubles(cfg)
    ensures PrintableTicks(Run(cfg, ls).value.ticks)
  {
    var s := Run(cfg, ls).value;
    forall t | t in s.ticks ensures PrintableTick(s.ticks[t]) {
      TickContents(cfg, ls, t);
      ShownPrintable(cfg, s.ticks[t], Kept(cfg, ls, t));
    }
  }

  lemma WalkTickable(order: seq<Bytes>, tick: TimeTick)
    requires Walks(order, tick.updateAgent.Keys, LexLess)
    requires PrintableTick(tick)
    ensures Tickable(order, tick)
  {
    forall j | 0 <= j < |order| ensures order[j] in tick.updateAgent {
      assert order[j] in order;
    }
  }

  lemma StepTickable(ticks: map<nat, TimeTick>, ss: seq<Step>, i: nat)
    requires PrintableTicks(ticks) && StepsOf(ss, ticks) && i < |ss|
    ensures Tickable(ss[i].order, ss[i].tick)
  {
    assert PrintableTick(ticks[ss[i].time]);
    WalkTickable(ss[i].order, ss[i].tick);
  }

  lemma StepsReplayable(ticks: map<nat, TimeTick>, ss: seq<Step>)
    requires PrintableTicks(ticks) && StepsOf(ss, ticks)
    ensures Replayable(ss)
  {
    TimesOfTrace(ss, ticks);
    forall i | 0 <= i < |ss| ensures Tickable(ss[i].order, ss[i].tick) { StepTickable(ticks, ss, i); }
    forall i, j | 0 <= i < j < |ss| ensures ss[i].time < ss[j].time { assert Times(ss)[i] < Times(ss)[j]; }
  }

  // ---------- healthy ticks, read off the lines ----------

  /** Every multicast among the lines lists a recipient, and each agent's latest update is finite. */
  ghost predicate SoundLines(cfg: Config, ls: seq<Line>) {
    && (forall i :: 0 <= i < |Casts(ls)| ==> Casts(ls)[i].Ok? && Casts(ls)[i].value.receivers != [])
    && (forall id :: LatestUpdate(cfg, ls, id).Some? ==>
      LatestUpdate(cfg, ls, id).value.Ok? && FinitePoint(LatestUpdate(cfg, ls, id).value.value))
  }

  lemma ShownSound(cfg: Config, tick: TimeTick, ls: seq<Line>)
    requires Shows(cfg, tick, ls)
    ensures SoundLines(cfg, ls) <==> Finite(tick) && Addressed(tick)
  {
    assert forall i :: 0 <= i < |tick.multicast| ==> Casts(ls)[i] == Ok(tick.multicast[i]);
    if SoundLines(cfg, ls) {
      forall id | id in tick.updateAgent ensures FinitePoint(tick.updateAgent[id]) {
        assert LatestUpdate(cfg, ls, id).Some?;
      }
    }
  }

  /** The kept lines of every tick are sound, and no message is too long for the length table. */
  ghost predicate SoundTrace(cfg: Config, ls: seq<Line>, ss: seq<Step>) {
    forall i :: 0 <= i < |ss| ==>
      && Placed(ss[i])
      && SoundLines(cfg, Kept(cfg, ls, ss[i].time))
      && Short(OldFormat.Texts(TickTrees(ss[i].order, ss[i].tick)))
  }

  lemma SoundStep(cfg: Config, ls: seq<Line>, ss: seq<Step>, i: nat)
    requires Run(cfg, ls).Ok? && ReadsDoubles(cfg) && StepsOf(ss, Run(cfg, ls).value.ticks) && i < |ss|
    ensures Placed(ss[i])
    ensures Healthy(ss[i]) <==>
      SoundLines(cfg, Kept(cfg, ls, ss[i].time)) && Short(OldFormat.Texts(TickTrees(ss[i].order, ss[i].tick)))
  {
    StoredPrintable(cfg, ls);
    StepTickable(Run(cfg, ls).value.ticks, ss, i);
    TickContents(cfg, ls, ss[i].time);
    ShownSound(cfg, ss[i].tick, Kept(cfg, ls, ss[i].time));
  }

  lemma SoundIsHealthy(cfg: Config, ls: seq<Line>, ss: seq<Step>)
    requires Run(cfg, ls).Ok? && ReadsDoubles(cfg) && StepsOf(ss, Run(cfg, ls).value.ticks) && Replayable(ss)
    ensures SoundTrace(cfg, ls, ss) <==> AllHealthy(ss, |ss|)
  {
    forall i | 0 <= i < |ss| ensures Placed(ss[i])
      ensures Healthy(ss[i]) <==>
        SoundLines(cfg, Kept(cfg, ls, ss[i].time)) && Short(OldFormat.Texts(TickTrees(ss[i].order, ss[i].tick)))
    {
      SoundStep(cfg, ls, ss, i);
    }
    if SoundTrace(cfg, ls, ss) {
      forall i | 0 <= i < |ss| ensures Tickable(ss[i].order, ss[i].tick) && Healthy(ss[i]) { }
    }
  }

  // ---------- from the lines to the end of the replay ----------

  /** What it takes for the replay of a trace to stop: enough agents for the nodes, ten ticks, and
      sound lines. */
  ghost predicate Replays(cfg: Config, ls: seq<Line>, ss: seq<Step>)
    requires Run(cfg, ls).Ok?
  {
    |SetOf(AddIds(ls))| >= cfg.maxAgents && |Run(cfg, ls).value.ticks| >= 10 && SoundTrace(cfg, ls, ss)
  }

  /** The walk of the known agents is long enough exactly when the add lines name enough ids. */
  lemma EnoughAgents(cfg: Config, ls: seq<Line>, order: seq<Bytes>)
    requires Run(cfg, ls).Ok? && Walks(order, Run(cfg, ls).value.agentsList, LexLess)
    ensures |order| <= cfg.maxAgents
    ensures |order| == cfg.maxAgents <==> |SetOf(AddIds(ls))| >= cfg.maxAgents
  {
    AgentCap(cfg, ls);
    FirstDistinctSize(AddIds(ls), cfg.maxAgents);
    LexStrictTotal();
    WalkLength(order, Run(cfg, ls).value.agentsList, LexLess);
  }

  lemma NodesOf(w: World, order: seq<Bytes>, max: nat)
    requires |order| <= max
    ensures NodesMade(w, order, max) == if |order| == max then Some(AddAgents(w, order)) else None
  {
    if |order| == max { assert order[..max] == order; }
  }

  /** From any world, a replay stops exactly when there are ten ticks and all lines are sound. */
  lemma TicksReplay(cfg: Config, ls: seq<Line>, ss: seq<Step>, work: Work<World, Broker.Bundled>, w: World)
    requires Run(cfg, ls).Ok? && ReadsDoubles(cfg)
    requires StepsOf(ss, Run(cfg, ls).value.ticks) && Drives(work, ss)
    ensures Replayable(ss) && Increasing(Times(ss)) && |ss| == |Run(cfg, ls).value.ticks|
    ensures ReachesStop(Times(ss), work, w) <==> |Run(cfg, ls).value.ticks| >= 10 && SoundTrace(cfg, ls, ss)
    ensures ReachesStop(Times(ss), work, w) ==> StoppedOnTime(Times(ss), work, w, ApplyAll(w, CommandsOver(ss)))
  {
    TimesOfTrace(ss, Run(cfg, ls).value.ticks);
    StoredPrintable(cfg, ls);
    StepsReplayable(Run(cfg, ls).value.ticks, ss);
    SoundIsHealthy(cfg, ls, ss);
    ReplayOutcome(ss, work, w);
  }

  /** For every trace that parses: its replay reaches its stop exactly when the add lines name at least
      as many agents as there are nodes, there are at least ten ticks, every kept multicast line lists
      a recipient, each agent's latest update in a tick is finite, and no message is too long. Then it
      starts with the known agents, every tick runs once, in ascending order, at time t_k - t_0, and
      the world is what the commands of the ticks make of it. */
  lemma TraceReplays(cfg: Config, ls: seq<Line>, ss: seq<Step>, order: seq<Bytes>,
                     work: Work<World, Broker.Bundled>, w: World)
    requires Run(cfg, ls).Ok? && ReadsDoubles(cfg)
    requires StepsOf(ss, Run(cfg, ls).value.ticks) && Drives(work, ss)
    requires Walks(order, Run(cfg, ls).value.agentsList, LexLess)
    ensures Replayable(ss) && Increasing(Times(ss)) && |ss| == |Run(cfg, ls).value.ticks|
    ensures var start := NodesMade(w, order, cfg.maxAgents);
      start.Some? && ReachesStop(Times(ss), work, start.value) <==> Replays(cfg, ls, ss)
    ensures Replays(cfg, ls, ss) ==>
      && var start := AddAgents(w, order);
      && NodesMade(w, order, cfg.maxAgents) == Some(start)
      && StoppedOnTime(Times(ss), work, start, ApplyAll(start, CommandsOver(ss)))
  {
    EnoughAgents(cfg, ls, order);
    NodesOf(w, order, cfg.maxAgents);
    TicksReplay(cfg, ls, ss, work, AddAgents(w, order));
  }

  /** The commands the trace itself stands for. */
  function OwnOver(ss: seq<Step>): seq<Command> {
    if ss == [] then [] else OwnOver(ss[..|ss| - 1]) + OwnCommands(ss[|ss| - 1].tick)
  }

  lemma SameLengths(ss: seq<Step>)
    requires forall i :: 0 <= i < |ss| ==> Tickable(ss[i].order, ss[i].tick)
    ensures |CommandsOver(ss)| == |OwnOver(ss)|
  {
    if ss != [] {
      var last := ss[|ss| - 1];
      EmptyWalk(last.order, last.tick.updateAgent);
      SameLengths(ss[..|ss| - 1]);
    }
  }

  lemma LastKept(before: seq<Command>, own: seq<Command>, s: Step)
    requires |before| == |own| && Tickable(s.order, s.tick)
    ensures before + TickCommands(s.order, s.tick) == own + OwnCommands(s.tick)
      <==> before == own && NulFreeTick(s.tick)
  {
    TickKept(s.order, s.tick);
    SplitEqual(before, TickCommands(s.order, s.tick), own, OwnCommands(s.tick));
  }

  predicate NulFreeOver(ss: seq<Step>) {
    ss == [] || (NulFreeOver(ss[..|ss| - 1]) && NulFreeTick(ss[|ss| - 1].tick))
  }

  lemma {:induction false} KeptOver(ss: seq<Step>)
    requires forall i :: 0 <= i < |ss| ==> Tickable(ss[i].order, ss[i].tick)
    ensures CommandsOver(ss) == OwnOver(ss) <==> NulFreeOver(ss)
  {
    if ss != [] {
      var last := ss[|ss| - 1];
      assert Tickable(last.order, last.tick);
      KeptOver(ss[..|ss| - 1]);
      SameLengths(ss[..|ss| - 1]);
      LastKept(CommandsOver(ss[..|ss| - 1]), OwnOver(ss[..|ss| - 1]), last);
    }
  }

  lemma {:induction false} NulFreeEach(ss: seq<Step>)
    ensures NulFreeOver(ss) <==> forall i :: 0 <= i < |ss| ==> NulFreeTick(ss[i].tick)
  {
    if ss != [] {
      var init := ss[..|ss| - 1];
      NulFreeEach(init);
      assert forall i :: 0 <= i < |init| ==> init[i] == ss[i];
    }
  }

  /** What a replay makes the handlers do is what the trace says exactly when no string of it holds
      a NUL. */
  lemma CommandsAreOwn(ss: seq<Step>)
    requires forall i :: 0 <= i < |ss| ==> Tickable(ss[i].order, ss[i].tick)
    ensures CommandsOver(ss) == OwnOver(ss) <==> forall i :: 0 <= i < |ss| ==> NulFreeTick(ss[i].tick)
  {
    KeptOver(ss);
    NulFreeEach(ss);
  }

  // ---------- from a file to the end of its replay ----------

  lemma TimesOrdered()
    ensures StrictTotal(Before)
  {
  }

  method WalkTimes(times: set<nat>) returns (order: seq<nat>)
    ensures Walks(order, times, Before)
    ensures forall i :: 0 <= i < |order| ==> order[i] in times
  {
    TimesOrdered();
    order := WalkOf(times, Before);
    assert forall i :: 0 <= i < |order| ==> order[i] in order;
  }

  /** The ticks of a trace in the order its map is walked. */
  method WalkTicks(ticks: map<nat, TimeTick>) returns (ss: seq<Step>)
    ensures StepsOf(ss, ticks)
  {
    var times := WalkTimes(ticks.Keys);
    ss := [];
    var i := 0;
    while i < |times|
      invariant 0 <= i <= |times|
      invariant Times(ss) == times[..i]
      invariant forall j :: 0 <= j < |ss| ==> Stands(ss[j], ticks)
    {
      var tick := ticks[times[i]];
      var order := WalkIds(tick.updateAgent.Keys);
      ss := ss + [TickStep(times[i], order, tick)];
      i := i + 1;
    }
    assert times[..i] == times;
  }

  lemma Parsed(cfg: Config, lines: seq<Bytes>)
    requires ParseAll(cfg, EMPTY_TRACE.(ticks := map[]), lines).Ok?
    ensures LexAll(lines).Ok? && Run(cfg, LexAll(lines).value).Ok?
    ensures Run(cfg, LexAll(lines).value) == ParseAll(cfg, EMPTY_TRACE.(ticks := map[]), lines)
  {
    ParseIsRun(cfg, lines);
  }

  /** Read a trace file, make the nodes, and replay it. A file that does not parse raises, and so does
      an unknown protocol. Otherwise the replay stops exactly when `TraceReplays` says so, and leaves
      the world that it says. */
  method StartReplay(cfg: Config, protocol: Bytes, lines: seq<Bytes>, registry: Registry)
      returns (r: Result<Status>, ghost ss: seq<Step>, ghost order: seq<Bytes>)
    requires ReadsDoubles(cfg)
    modifies registry
    ensures r.Ok? <==>
      && ParseAll(cfg, EMPTY_TRACE.(ticks := map[]), lines).Ok?
      && (protocol == "80211b" || protocol == "80211p")
    ensures r.Ok? ==> LexAll(lines).Ok? && Run(cfg, LexAll(lines).value).Ok?
    ensures r.Ok? ==>
      && var ls := LexAll(lines).value;
      && StepsOf(ss, Run(cfg, ls).value.ticks) && Replayable(ss)
      && Walks(order, Run(cfg, ls).value.agentsList, LexLess)
      && (r.value == Stopped <==> Replays(cfg, ls, ss))
      && (r.value == Stopped ==>
        Ok(registry.View()) == ApplyAll(AddAgents(old(registry.View()), order), CommandsOver(ss)))
  {
    ss, order := [], [];
    var parser := new TraceParser(cfg);
    var done := parser.Parse(lines);
    if done.Raised? {
      return Raised(done.why), ss, order;
    }
    Parsed(cfg, lines);
    ghost var ls := LexAll(lines).value;
    ghost var w := registry.View();
    var made;
    made, order := CreateNodes(protocol, parser.agentsList, cfg.maxAgents, registry);
    var steps := WalkTicks(parser.traceTimeTicks);
    ss := steps;
    StoredPrintable(cfg, ls);
    StepsReplayable(Run(cfg, ls).value.ticks, ss);
    SoundIsHealthy(cfg, ls, ss);
    TimesOfTrace(ss, Run(cfg, ls).value.ticks);
    EnoughAgents(cfg, ls, order);
    NodesOf(w, order, cfg.maxAgents);
    if made.Raised? {
      return Raised(made.why), ss, order;
    }
    if !made.value {
      return Ok(Broken), ss, order;
    }
    var replayer := new Replayer(steps, registry);
    replayer.Start();
    r := Ok(replayer.status);
  }

  // ---------- where the agents end ----------

  /** An agent's latest update over all ticks, read off the lines. */
  function LatestOver(cfg: Config, ls: seq<Line>, times: seq<nat>, id: Bytes): Option<DPoint> {
    if times == [] then None
    else
      match LatestUpdate(cfg, Kept(cfg, ls, times[|times| - 1]), id)
      case Some(Ok(p)) => Some(p)
      case _ => LatestOver(cfg, ls, times[..|times| - 1], id)
  }

  lemma StepPlace(cfg: Config, ls: seq<Line>, s: Step, id: Bytes)
    requires Run(cfg, ls).Ok? && Stands(s, Run(cfg, ls).value.ticks)
    ensures match LatestUpdate(cfg, Kept(cfg, ls, s.time), id)
      case Some(Ok(p)) => PlaceIn(s.tick, id) == Some(p)
      case _ => PlaceIn(s.tick, id) == None
  {
    TickContents(cfg, ls, s.time);
  }

  lemma {:induction false} LatestIsLast(cfg: Config, ls: seq<Line>, ss: seq<Step>, id: Bytes)
    requires Run(cfg, ls).Ok? && forall i :: 0 <= i < |ss| ==> Stands(ss[i], Run(cfg, ls).value.ticks)
    ensures LastPlace(ss, id) == LatestOver(cfg, ls, Times(ss), id)
    decreases |ss|
  {
    if ss != [] {
      var init := ss[..|ss| - 1];
      assert Times(init) == Times(ss)[..|ss| - 1];
      LatestIsLast(cfg, ls, init, id);
      StepPlace(cfg, ls, ss[|ss| - 1], id);
    }
  }

  /** Once a replay has stopped, every known agent that was not there before stands at its latest
      update over all ticks, if it has any; ids are taken to hold no NUL. */
  lemma AgentsEndAtLatest(cfg: Config, ls: seq<Line>, ss: seq<Step>, order: seq<Bytes>, w: World, v: World, id: Bytes)
    requires Run(cfg, ls).Ok? && ReadsDoubles(cfg) && StepsOf(ss, Run(cfg, ls).value.ticks)
    requires Walks(order, Run(cfg, ls).value.agentsList, LexLess)
    requires forall i :: 0 <= i < |ss| ==> Tickable(ss[i].order, ss[i].tick) && NulFreePlaces(ss[i].tick)
    requires ApplyAll(AddAgents(w, order), CommandsOver(ss)) == Ok(v)
    requires id in Run(cfg, ls).value.agentsList && FateOf(w, id) == Absent
    ensures FateOf(v, id) == Alive(LatestOver(cfg, ls, Times(ss), id))
  {
    assert id in order;
    MadeStandsAt(w, order, ss, id);
    LatestIsLast(cfg, ls, ss, id);
  }

  /** Every place that the replay of a tick hands to the handlers is that of a live agent. */
  lemma MovesAreLive(cfg: Config, ls: seq<Line>, ss: seq<Step>, order: seq<Bytes>, w: World, k: nat, id: Bytes)
    requires Run(cfg, ls).Ok? && StepsOf(ss, Run(cfg, ls).value.ticks) && k < |ss|
    requires Walks(order, Run(cfg, ls).value.agentsList, LexLess)
    requires forall i :: 0 <= i < |ss| ==> Tickable(ss[i].order, ss[i].tick) && NulFreePlaces(ss[i].tick)
    requires Moves(ss[k].order, ss[k].tick.updateAgent).Locations?
    requires id in Moves(ss[k].order, ss[k].tick.updateAgent).places && FateOf(w, id) == Absent
    ensures ApplyAll(AddAgents(w, order), CommandsOver(ss[..k])).Ok?
    ensures Live(ApplyAll(AddAgents(w, order), CommandsOver(ss[..k])).value, id)
  {
    assert Stands(ss[k], Run(cfg, ls).value.ticks);
    MovesKept(ss[k].order, ss[k].tick.updateAgent);
    StoredAgents(cfg, ls);
    assert id in order;
    MadeStandsAt(w, order, ss[..k], id);
  }

  // ---------- what replayed sends achieve ----------

  /** A location update, or a send in the client's own name. */
  predicate FromReplay(c: Command) {
    c.Locations? || (c.Send? && c.send.fromId == OUR_ID)
  }

  lemma {:induction false} FromReplayOver(ss: seq<Step>)
    requires forall i :: 0 <= i < |ss| ==> Tickable(ss[i].order, ss[i].tick)
    ensures forall i :: 0 <= i < |CommandsOver(ss)| ==> FromReplay(CommandsOver(ss)[i])
  {
    if ss != [] {
      var last := ss[|ss| - 1];
      assert Tickable(last.order, last.tick);
      FromReplayOver(ss[..|ss| - 1]);
      FromReplayTick(last.order, last.tick);
    }
  }

  lemma FromReplayTick(order: seq<Bytes>, tick: TimeTick)
    requires forall i :: 0 <= i < |order| ==> order[i] in tick.updateAgent
    ensures forall i :: 0 <= i < |TickCommands(order, tick)| ==> FromReplay(TickCommands(order, tick)[i])
  {
  }

  /** The live recipient occurrences of all sends, whoever sends. */
  function Wanted(w: World, cs: seq<Command>): nat {
    if cs == [] then 0
    else (if cs[0].Send? then |LiveOnes(w, cs[0].send.toIds)| else 0) + Wanted(w, cs[1..])
  }

  lemma {:induction false} WantedSame(v: World, w: World, cs: seq<Command>)
    requires SameLive(v, w)
    ensures Wanted(v, cs) == Wanted(w, cs)
  {
    if cs != [] {
      if cs[0].Send? { LiveOnesSame(v, w, cs[0].send.toIds); }
      WantedSame(v, w, cs[1..]);
    }
  }

  lemma OneSent(w: World, c: Command)
    requires FromReplay(c)
    ensures Apply(w, c).Ok? && SameLive(Apply(w, c).value, w)
    ensures Apply(w, c).value.packetCount
      == w.packetCount + if c.Send? && Live(w, OUR_ID) then |LiveOnes(w, c.send.toIds)| else 0
  {
    CommandSends(w, c);
  }

  /** Location updates and the client's own sends never fail and change no agent's liveness. They
      send one packet per live recipient if an agent has the client's own id, and otherwise none. */
  lemma {:induction false} OwnSends(w: World, cs: seq<Command>)
    requires forall i :: 0 <= i < |cs| ==> FromReplay(cs[i])
    ensures ApplyAll(w, cs).Ok? && SameLive(ApplyAll(w, cs).value, w)
    ensures ApplyAll(w, cs).value.packetCount == w.packetCount + if Live(w, OUR_ID) then Wanted(w, cs) else 0
    decreases |cs|
  {
    if cs != [] {
      OneSent(w, cs[0]);
      var v := Apply(w, cs[0]).value;
      OwnSends(v, cs[1..]);
      WantedSame(v, w, cs[1..]);
    }
  }

  /** Replayed sends all carry the client's own id as their sender, so a replay that stops has sent
      one packet per live recipient the trace names if an agent has that very id, and otherwise not
      a single one, whatever the trace asks for. It leaves the live agents as they were. */
  lemma ReplayPackets(ss: seq<Step>, work: Work<World, Broker.Bundled>, w: World, n: nat)
    requires Replayable(ss) && Drives(work, ss) && After(Times(ss), work, w, n).status == Stopped
    ensures var v := After(Times(ss), work, w, n).world;
      && SameLive(v, w)
      && v.packetCount == w.packetCount + if Live(w, OUR_ID) then Wanted(w, CommandsOver(ss)) else 0
  {
    Concluded(ss, work, w, n);
    FromReplayOver(ss);
    OwnSends(w, CommandsOver(ss));
  }
}
