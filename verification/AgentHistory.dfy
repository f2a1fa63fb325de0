/**
 What a whole run of messages does to each single agent id, told from the
 messages alone: only the events that name the id matter, and of those only
 the ones since its last removal.
 */
module AgentHistory {
  import opened Octets
  import opened Messages
  import opened AgentRegistry

  /** What a run of messages does to one id. */
  datatype Event = Added | Removed | Looked | Put(p: DPoint)

  /** `Blocked`: a null entry, which no later addition replaces. */
  datatype Fate = Absent | Blocked | Alive(position: Option<DPoint>)

  function FateOf(w: World, id: Bytes): Fate {
    if id !in w.agents then Absent
    else if w.agents[id].None? then Blocked
    else Alive(w.agents[id].value.position)
  }

  // ---------- the events of one id ----------

  function Repeat(ids: seq<Bytes>, id: Bytes, e: Event): seq<Event> {
    if ids == [] then []
    else (if ids[0] == id then [e] else []) + Repeat(ids[1..], id, e)
  }

  // ---------- the fate a history decides ----------

  function SinceRemoval(h: seq<Event>): seq<Event> {
    if h == [] then []
    else if h[|h| - 1] == Removed then []
    else SinceRemoval(h[..|h| - 1]) + [h[|h| - 1]]
  }

  function LatestPut(h: seq<Event>): Option<DPoint> {
    if h == [] then None
    else if h[|h| - 1].Put? then Some(h[|h| - 1].p)
    else LatestPut(h[..|h| - 1])
  }

  /** The first addition or look-up decides; after an addition the latest position counts. */
  function Settled(h: seq<Event>): Fate {
    if h == [] then Absent
    else if h[0] == Added then Alive(LatestPut(h[1..]))
    else if h[0] == Looked then Blocked
    else Settled(h[1..])
  }

  function Decided(h: seq<Event>): Fate {
    Settled(SinceRemoval(h))
  }

  /** The events one command holds for an id; the recipients of a send are only looked up
      when its sender is live. */
  function EventsOf(c: Command, senderLive: bool, id: Bytes): seq<Event> {
    match c
    case Agents(add, rem) => Repeat(add, id, Added) + Repeat(rem, id, Removed)
    case Locations(places) => if id in places then [Put(places[id])] else []
    case Send(m) => Repeat([m.fromId], id, Looked) + (if senderLive then Repeat(m.toIds, id, Looked) else [])
    case Nothing => []
  }

  /** The events of one id in a list of commands. Whether a sender is live is decided by the
      sender's own events before. */
  function History(cs: seq<Command>, id: Bytes): seq<Event>
    decreases |cs|
  {
    if cs == [] then []
    else
      var before, c := cs[..|cs| - 1], cs[|cs| - 1];
      History(before, id) + EventsOf(c, c.Send? && Decided(History(before, c.send.fromId)).Alive?, id)
  }

  // ---------- the same, one event at a time ----------

  function Next(f: Fate, e: Event): Fate {
    match e
    case Added => if f == Absent then Alive(None) else f
    case Looked => if f == Absent then Blocked else f
    case Removed => Absent
    case Put(p) => if f.Alive? then Alive(Some(p)) else f
  }

  function Follow(f: Fate, h: seq<Event>): Fate
    decreases |h|
  {
    if h == [] then f else Follow(Next(f, h[0]), h[1..])
  }

  lemma {:induction false} FollowAppend(f: Fate, a: seq<Event>, b: seq<Event>)
    ensures Follow(f, a + b) == Follow(Follow(f, a), b)
    decreases |a|
  {
    if a == [] {
      assert a + b == b;
    } else {
      FollowAppend(Next(f, a[0]), a[1..], b);
      assert (a + b)[1..] == a[1..] + b;
    }
  }

  lemma {:induction false} LatestPutExtend(h: seq<Event>, e: Event)
    ensures LatestPut(h + [e]) == if e.Put? then Some(e.p) else LatestPut(h)
  {
    assert (h + [e])[..|h|] == h;
  }

  lemma {:induction false} SettledExtend(h: seq<Event>, e: Event)
    requires e != Removed
    ensures Settled(h + [e]) == Next(Settled(h), e)
  {
    if h == [] {
      assert [e][1..] == [] && [] + [e] == [e];
    } else {
      assert (h + [e])[1..] == h[1..] + [e];
      if h[0] == Added {
        LatestPutExtend(h[1..], e);
      } else if h[0] != Looked {
        SettledExtend(h[1..], e);
      }
    }
  }

  /** Following the events one by one leads to the fate the whole history decides. */
  lemma {:induction false} FollowDecides(h: seq<Event>)
    ensures Follow(Absent, h) == Decided(h)
  {
    if h != [] {
      var init, e := h[..|h| - 1], h[|h| - 1];
      assert h == init + [e];
      FollowDecides(init);
      FollowAppend(Absent, init, [e]);
      assert Follow(Follow(Absent, init), [e]) == Next(Follow(Absent, init), e) by { assert [e][1..] == []; }
      if e != Removed {
        SettledExtend(SinceRemoval(init), e);
      }
    }
  }

  // ---------- the registry follows every id's history ----------

  lemma {:induction false} AddsFollow(w: World, ids: seq<Bytes>, id: Bytes)
    ensures FateOf(AddAgents(w, ids), id) == Follow(FateOf(w, id), Repeat(ids, id, Added))
    decreases |ids|
  {
    if ids != [] {
      AddsFollow(AddAgent(w, ids[0]), ids[1..], id);
      HeadStep(FateOf(w, id), ids, id, Added);
    }
  }

  lemma {:induction false} RemovesFollow(w: World, ids: seq<Bytes>, id: Bytes)
    requires RemoveAgents(w, ids).Ok?
    ensures FateOf(RemoveAgents(w, ids).value, id) == Follow(FateOf(w, id), Repeat(ids, id, Removed))
    decreases |ids|
  {
    if ids != [] {
      RemovesFollow(RemoveAgent(w, ids[0]).value, ids[1..], id);
      HeadStep(FateOf(w, id), ids, id, Removed);
    }
  }

  lemma {:induction false} SendsFollow(w: World, from: Bytes, ids: seq<Bytes>, data: Bytes, id: Bytes)
    ensures FateOf(SendEach(w, from, ids, data), id) == Follow(FateOf(w, id), Repeat(ids, id, Looked))
    decreases |ids|
  {
    if ids != [] {
      SendsFollow(SendOne(w, from, ids[0], data), from, ids[1..], data, id);
      HeadStep(FateOf(w, id), ids, id, Looked);
    }
  }

  /** One step into a list of ids. */
  lemma HeadStep(f: Fate, ids: seq<Bytes>, id: Bytes, e: Event)
    requires ids != []
    ensures Follow(f, Repeat(ids, id, e))
      == Follow(if ids[0] == id then Next(f, e) else f, Repeat(ids[1..], id, e))
  {
    var tail := Repeat(ids[1..], id, e);
    assert [] + tail == tail;
    assert ([e] + tail)[1..] == tail;
  }

  lemma CommandFollows(w: World, c: Command, id: Bytes)
    requires Apply(w, c).Ok?
    ensures FateOf(Apply(w, c).value, id) == Follow(FateOf(w, id), EventsOf(c, c.Send? && Live(w, c.send.fromId), id))
  {
    match c
    case Agents(add, rem) =>
      AddsFollow(w, add, id);
      RemovesFollow(AddAgents(w, add), rem, id);
      FollowAppend(FateOf(w, id), Repeat(add, id, Added), Repeat(rem, id, Removed));
    case Locations(places) =>
      if id in places { assert [Put(places[id])][1..] == []; }
    case Send(m) =>
      var v := LookUp(w, m.fromId);
      HeadStep(FateOf(w, id), [m.fromId], id, Looked);
      assert Repeat([m.fromId][1..], id, Looked) == [];
      SendsFollow(v, m.fromId, m.toIds, m.data, id);
      FollowAppend(FateOf(w, id), Repeat([m.fromId], id, Looked),
                   if Live(w, m.fromId) then Repeat(m.toIds, id, Looked) else []);
    case Nothing =>
  }

  /** The last command of a run, apart from the ones before it. */
  lemma LastCommand(w: World, cs: seq<Command>)
    requires cs != [] && ApplyAll(w, cs).Ok?
    ensures ApplyAll(w, cs[..|cs| - 1]).Ok?
    ensures Apply(ApplyAll(w, cs[..|cs| - 1]).value, cs[|cs| - 1]) == ApplyAll(w, cs)
  {
    var before, c := cs[..|cs| - 1], cs[|cs| - 1];
    assert cs == before + [c];
    ApplyAllAppend(w, before, [c]);
    if ApplyAll(w, before).Ok? {
      ApplyAllOne(ApplyAll(w, before).value, c);
    }
  }

  /** After every run of messages, each id is where its own history puts it: live if an
      addition came first since its last removal, at its latest position since then;
      blocked if a look-up came first; otherwise absent. */
  lemma {:induction false} RegistryRefinesHistory(cs: seq<Command>, id: Bytes)
    requires ApplyAll(EMPTY_WORLD, cs).Ok?
    ensures FateOf(ApplyAll(EMPTY_WORLD, cs).value, id) == Decided(History(cs, id))
    decreases |cs|
  {
    if cs != [] {
      var before, c := cs[..|cs| - 1], cs[|cs| - 1];
      LastCommand(EMPTY_WORLD, cs);
      var w := ApplyAll(EMPTY_WORLD, before).value;
      RegistryRefinesHistory(before, id);
      if c.Send? { RegistryRefinesHistory(before, c.send.fromId); }
      CommandFollows(w, c, id);
      FollowDecides(History(before, id));
      FollowAppend(Absent, History(before, id), EventsOf(c, c.Send? && Live(w, c.send.fromId), id));
      FollowDecides(History(cs, id));
    }
  }

  // ---------- when a message raises ----------

  lemma {:induction false} AddsKeepNulls(w: World, ids: seq<Bytes>, id: Bytes)
    ensures FateOf(AddAgents(w, ids), id) == Blocked <==> FateOf(w, id) == Blocked
    decreases |ids|
  {
    if ids != [] { AddsKeepNulls(AddAgent(w, ids[0]), ids[1..], id); }
  }

  lemma {:induction false} RemovesRaise(w: World, ids: seq<Bytes>)
    ensures RemoveAgents(w, ids).Raised? <==> exists id :: id in ids && FateOf(w, id) == Blocked
    ensures RemoveAgents(w, ids).Raised? ==> RemoveAgents(w, ids).why == NullAgent
    decreases |ids|
  {
    if ids != [] {
      var r := RemoveAgent(w, ids[0]);
      if r.Ok? {
        RemovesRaise(r.value, ids[1..]);
        forall id ensures FateOf(r.value, id) == Blocked <==> FateOf(w, id) == Blocked {
        }
        assert forall id :: id in ids <==> id == ids[0] || id in ids[1..];
        assert FateOf(w, ids[0]) != Blocked;
      } else {
        assert ids[0] in ids;
      }
    }
  }

  /** The only message that can bring the registry down is one that removes an id whose entry
      is null before the message. */
  lemma RaisesExactlyOnNull(w: World, c: Command)
    ensures Apply(w, c).Raised? <==> c.Agents? && exists id :: id in c.rem && FateOf(w, id) == Blocked
  {
    if c.Agents? {
      RemovesRaise(AddAgents(w, c.add), c.rem);
      forall id ensures FateOf(AddAgents(w, c.add), id) == Blocked <==> FateOf(w, id) == Blocked {
        AddsKeepNulls(w, c.add, id);
      }
    }
  }

  /** A look-up of an absent id blocks it: the addition that follows does nothing, and the removal raises. */
  lemma LookUpBlocks(id: Bytes, m: OpaqueSend)
    requires m.fromId == id
    ensures ApplyAll(EMPTY_WORLD, [Send(m), Agents([id], [])]).Ok?
    ensures !Live(ApplyAll(EMPTY_WORLD, [Send(m), Agents([id], [])]).value, id)
    ensures ApplyAll(EMPTY_WORLD, [Send(m), Agents([id], [id])]) == Raised(NullAgent)
  {
    var w := Transmit(EMPTY_WORLD, m);
    assert FateOf(w, id) == Blocked;
    AddsKeepNulls(w, [id], id);
    var a, b := Agents([id], []), Agents([id], [id]);
    assert [Send(m), a][1..] == [a] && [a][1..] == [] && [Send(m), b][1..] == [b];
    RemovesRaise(AddAgents(w, [id]), [id]);
    assert id in [id];
    var v := AddAgents(w, [id]);
    assert Apply(w, a) == Ok(v);
    assert ApplyAll(w, [a]) == ApplyAll(v, []) == Ok(v);
    assert ApplyAll(EMPTY_WORLD, [Send(m), a]) == ApplyAll(w, [a]);
  }

  // ---------- packets ----------

  function LiveOnes(w: World, ids: seq<Bytes>): seq<Bytes> {
    if ids == [] then []
    else (if Live(w, ids[0]) then [ids[0]] else []) + LiveOnes(w, ids[1..])
  }

  function Packets(from: Bytes, to: seq<Bytes>, data: Bytes): (r: seq<Packet>)
    ensures |r| == |to|
  {
    seq(|to|, i requires 0 <= i < |to| => Packet(from, to[i], data))
  }

  ghost predicate SameLive(v: World, w: World) {
    forall id :: Live(v, id) <==> Live(w, id)
  }

  lemma {:induction false} LiveOnesSame(v: World, w: World, ids: seq<Bytes>)
    requires SameLive(v, w)
    ensures LiveOnes(v, ids) == LiveOnes(w, ids)
  {
    if ids != [] { LiveOnesSame(v, w, ids[1..]); }
  }

  lemma {:induction false} SendEachSends(w: World, from: Bytes, to: seq<Bytes>, data: Bytes)
    ensures var v := SendEach(w, from, to, data);
      && SameLive(v, w)
      && v.sent == w.sent + Packets(from, LiveOnes(w, to), data)
      && v.packetCount == w.packetCount + |LiveOnes(w, to)|
    decreases |to|
  {
    if to == [] {
      assert w.sent + Packets(from, [], data) == w.sent;
    } else {
      var v := SendOne(w, from, to[0], data);
      var tail := LiveOnes(w, to[1..]);
      assert SameLive(v, w);
      LiveOnesSame(v, w, to[1..]);
      SendEachSends(v, from, to[1..], data);
      if Live(w, to[0]) {
        PacketsCons(w.sent, from, to[0], tail, data);
      } else {
        assert [] + tail == tail;
      }
    }
  }

  lemma PacketsCons(before: seq<Packet>, from: Bytes, to: Bytes, tail: seq<Bytes>, data: Bytes)
    ensures before + [Packet(from, to, data)] + Packets(from, tail, data) == before + Packets(from, [to] + tail, data)
  {
    assert Packets(from, [to] + tail, data) == [Packet(from, to, data)] + Packets(from, tail, data);
  }

  /** The recipients a command reaches: those live when it is handled, if its sender is live. */
  function Reached(w: World, c: Command): seq<Bytes> {
    if c.Send? && Live(w, c.send.fromId) then LiveOnes(w, c.send.toIds) else []
  }

  /** A send changes no live agent, and sends one packet per live recipient occurrence, in order;
      no other message sends any. */
  lemma CommandSends(w: World, c: Command)
    requires Apply(w, c).Ok?
    ensures var v := Apply(w, c).value;
      && v.packetCount == w.packetCount + |Reached(w, c)|
      && (c.Send? ==> SameLive(v, w) && v.sent == w.sent + Packets(c.send.fromId, Reached(w, c), c.send.data))
      && (!c.Send? ==> v.sent == w.sent)
  {
    match c
    case Agents(add, rem) =>
      AddsKeepPackets(w, add);
      RemovesKeepPackets(AddAgents(w, add), rem);
    case Send(m) =>
      var u := LookUp(w, m.fromId);
      assert SameLive(u, w);
      LiveOnesSame(u, w, m.toIds);
      SendEachSends(u, m.fromId, m.toIds, m.data);
      assert w.sent + Packets(m.fromId, [], m.data) == w.sent;
    case _ =>
  }

  lemma {:induction false} AddsKeepPackets(w: World, ids: seq<Bytes>)
    ensures AddAgents(w, ids).packetCount == w.packetCount && AddAgents(w, ids).sent == w.sent
    decreases |ids|
  {
    if ids != [] { AddsKeepPackets(AddAgent(w, ids[0]), ids[1..]); }
  }

  lemma {:induction false} RemovesKeepPackets(w: World, ids: seq<Bytes>)
    requires RemoveAgents(w, ids).Ok?
    ensures RemoveAgents(w, ids).value.packetCount == w.packetCount && RemoveAgents(w, ids).value.sent == w.sent
    decreases |ids|
  {
    if ids != [] { RemovesKeepPackets(RemoveAgent(w, ids[0]).value, ids[1..]); }
  }

  /** Recipient occurrences reached over a run. */
  function ReachedOver(w: World, cs: seq<Command>): nat
    decreases |cs|
  {
    if cs == [] then 0
    else |Reached(w, cs[0])| + match Apply(w, cs[0]) case Raised(_) => 0 case Ok(v) => ReachedOver(v, cs[1..])
  }

  /** Over every run the packet counter grows by the recipient occurrences that were live at
      send time, summed over the sends whose sender was live, and the log holds one packet each. */
  lemma {:induction false} PacketConservation(w: World, cs: seq<Command>)
    requires ApplyAll(w, cs).Ok?
    ensures var v := ApplyAll(w, cs).value;
      && v.packetCount == w.packetCount + ReachedOver(w, cs)
      && |v.sent| == |w.sent| + ReachedOver(w, cs)
    decreases |cs|
  {
    if cs != [] {
      CommandSends(w, cs[0]);
      PacketConservation(Apply(w, cs[0]).value, cs[1..]);
    }
  }
}
