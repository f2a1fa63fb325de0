/** What every interleaving of the broker's two threads keeps, over runs of any length. */
module BrokerRuns {
  import opened Octets
  import opened JsonText
  import opened BundleVersion
  import opened Serializer
  import opened Conglomerate
  import opened Deserializer
  import PrintedBundles
  import opened AgentRegistry
  import opened Broker

  // ---------- the invariant ----------

  /** While the simulation thread runs, queued bundles mean that it is not told to wait. */
  ghost predicate NoLostWakeUp(s: State) {
    s.sim == Running && s.queue != [] ==> !s.paused
  }

  /** Handled bundles followed by queued ones are all decoded ones, and the world is what
      handling the handled ones in that order makes of the initial world. */
  ghost predicate Fifo(w: World, s: State) {
    && s.handled + s.queue == s.decoded
    && HandleBundles(w, s.handled) == Ok(s.world)
  }

  /** Rounds never outnumber deliveries, and a cleared flag stands for a delivery not yet used. */
  ghost predicate Paced(s: State) {
    && s.tick + (if s.sim == Running && s.paused then 0 else 1) <= s.calls
    && (s.sim == Running ==> s.tick + |s.queue| <= s.calls)
  }

  /** The outgoing object after the given complete rounds and the messages since. */
  function Collected(rounds: seq<seq<Bytes>>, since: seq<Bytes>): Ongoing {
    Ongoing(OUR_ID, SERVER_ID, Lengths(since), Join(Flatten(rounds)) + Join(since))
  }

  /** Each round sent its outgoing bundle and then its acknowledgement. */
  ghost predicate Acknowledged(s: State) {
    s.outgoing == Collected(s.rounds, s.forwarded) && Log(s.tick, s.sent, s.rounds)
  }

  ghost predicate Log(tick: nat, sent: seq<Sent>, rounds: seq<seq<Bytes>>) {
    && |rounds| == tick
    && |sent| == 2 * tick
    && (forall k :: 0 <= k < tick ==> sent[2 * k + 1] == TickedClient)
    && (forall k :: 0 <= k < tick ==> sent[2 * k] == Outgoing(Collected(rounds[..k], rounds[k])))
  }

  ghost predicate Inv(w: World, s: State) {
    !s.sim.Crashed? ==> NoLostWakeUp(s) && Fifo(w, s) && Paced(s) && Acknowledged(s)
  }

  // ---------- each step keeps it ----------

  lemma {:induction false} HandleBundlesAppend(w: World, a: seq<Bundled>, b: seq<Bundled>)
    ensures HandleBundles(w, a + b) ==
      match HandleBundles(w, a) case Raised(why) => Raised(why) case Ok(v) => HandleBundles(v, b)
    decreases |a|
  {
    if a == [] {
      assert a + b == b;
    } else {
      assert (a + b)[1..] == a[1..] + b;
      match HandleBundle(w, a[0])
      case Raised(_) =>
      case Ok(v) => HandleBundlesAppend(v, a[1..], b);
    }
  }

  lemma StepFifo(w: World, s: State, e: Event)
    requires Fifo(w, s) && !Step(s, e).sim.Crashed?
    ensures Fifo(w, Step(s, e))
  {
    match e
    case Receive(header, input) =>
      if input != [] {
        Assoc(s.handled, s.queue, [Deserialize(EMPTY, header, input).0]);
      }
    case Round =>
      HandleBundlesAppend(w, s.handled, s.queue);
      assert s.decoded + [] == s.decoded;
    case _ =>
  }

  lemma StepPaced(s: State, e: Event)
    requires Paced(s) && NoLostWakeUp(s) && !Step(s, e).sim.Crashed?
    ensures Paced(Step(s, e)) && NoLostWakeUp(Step(s, e))
  {
  }

  lemma {:induction false} FlattenExtend(rounds: seq<seq<Bytes>>, last: seq<Bytes>)
    ensures Flatten(rounds + [last]) == Flatten(rounds) + last
  {
    if rounds == [] {
      assert [last][1..] == [] && [] + [last] == [last];
      assert last + [] == last;
    } else {
      assert (rounds + [last])[1..] == rounds[1..] + [last];
      FlattenExtend(rounds[1..], last);
      Assoc(rounds[0], Flatten(rounds[1..]), last);
    }
  }

  lemma CollectedNext(rounds: seq<seq<Bytes>>, since: seq<Bytes>)
    ensures Begin(Collected(rounds, since), OUR_ID, SERVER_ID) == Collected(rounds + [since], [])
  {
    FlattenExtend(rounds, since);
    JoinAppend(Flatten(rounds), since);
    var all := Join(Flatten(rounds)) + Join(since);
    assert all + [] == all;
  }

  lemma CollectedMore(rounds: seq<seq<Bytes>>, since: seq<Bytes>, msg: Bytes)
    ensures Add(Collected(rounds, since), msg) == Collected(rounds, since + [msg])
  {
    JoinAppend(since, [msg]);
    LengthsAppend(since, [msg]);
    JoinOne(msg);
    Assoc(Join(Flatten(rounds)), Join(since), msg);
  }

  lemma LogNext(tick: nat, sent: seq<Sent>, rounds: seq<seq<Bytes>>, last: seq<Bytes>)
    requires Log(tick, sent, rounds)
    ensures Log(tick + 1, sent + [Outgoing(Collected(rounds, last)), TickedClient], rounds + [last])
  {
    var t, r := sent + [Outgoing(Collected(rounds, last)), TickedClient], rounds + [last];
    assert r[..tick] == rounds;
    forall k | 0 <= k < tick + 1
      ensures t[2 * k] == Outgoing(Collected(r[..k], r[k])) && t[2 * k + 1] == TickedClient
    {
      if k < tick {
        assert r[..k] == rounds[..k];
        assert t[2 * k] == sent[2 * k] && t[2 * k + 1] == sent[2 * k + 1];
      }
    }
  }

  lemma FinishedAcknowledged(s: State)
    requires Acknowledged(s)
    ensures Acknowledged(Finished(s))
  {
    CollectedNext(s.rounds, s.forwarded);
    LogNext(s.tick, s.sent, s.rounds, s.forwarded);
  }

  /** A delivery touches nothing that has to do with sending. */
  lemma ReceiveFrame(s: State, e: Event)
    requires e.Receive?
    ensures var t := Step(s, e);
      && t.outgoing == s.outgoing && t.rounds == s.rounds && t.forwarded == s.forwarded
      && t.tick == s.tick && t.sent == s.sent
  {
  }

  lemma StepAcknowledged(s: State, e: Event)
    requires Acknowledged(s) && !Step(s, e).sim.Crashed?
    ensures Acknowledged(Step(s, e))
  {
    match e
    case Receive(_, _) => ReceiveFrame(s, e);
    case Round =>
      if s.sim == Running && !s.paused && s.open {
        var w := HandleBundles(s.world, s.queue).value;
        var drained := s.(paused := true, queue := [], handled := s.handled + s.queue, world := w);
        assert Step(s, e) == Finished(drained);
        FinishedAcknowledged(drained);
      }
    case Forward(msg) => CollectedMore(s.rounds, s.forwarded, msg);
    case Close =>
  }

  lemma StepInv(w: World, s: State, e: Event)
    requires Inv(w, s)
    ensures Inv(w, Step(s, e))
  {
    if !Step(s, e).sim.Crashed? {
      assert !s.sim.Crashed?;
      StepFifo(w, s, e);
      StepPaced(s, e);
      StepAcknowledged(s, e);
    }
  }

  lemma {:induction false} ExecInv(w: World, s: State, es: seq<Event>)
    requires Inv(w, s)
    ensures Inv(w, Exec(s, es))
    decreases |es|
  {
    if es != [] {
      StepInv(w, s, es[0]);
      ExecInv(w, Step(s, es[0]), es[1..]);
    }
  }

  // ---------- over whole runs ----------

  /** Every run of the two threads in which nothing raised keeps the invariant. */
  lemma EveryRun(w: World, es: seq<Event>)
    ensures var s := Exec(Initial(w), es);
      !s.sim.Crashed? ==> NoLostWakeUp(s) && Fifo(w, s) && Paced(s) && Acknowledged(s)
  {
    InitialInv(w);
    ExecInv(w, Initial(w), es);
  }

  lemma InitialInv(w: World)
    ensures Inv(w, Initial(w))
  {
    assert Flatten([]) == [] && Join([]) == [] && Lengths([]) == [];
    assert [] + Initial(w).queue == Initial(w).decoded;
  }

  lemma FifoOver(w: World, es: seq<Event>)
    requires !Exec(Initial(w), es).sim.Crashed?
    ensures Fifo(w, Exec(Initial(w), es)) && NoLostWakeUp(Exec(Initial(w), es))
  {
    EveryRun(w, es);
  }

  /** Whenever bundles are queued on an open connection, the next turn of the simulation thread
      handles all of them: nothing has to arrive first. */
  lemma WakeUpDelivers(w: World, es: seq<Event>)
    requires var s := Exec(Initial(w), es);
      s.sim == Running && s.queue != [] && s.open && !Step(s, Round).sim.Crashed?
    ensures var s := Exec(Initial(w), es);
      var t := Step(s, Round);
      && t.queue == [] && t.handled == t.decoded == s.decoded
      && t.tick == s.tick + 1
      && HandleBundles(w, t.decoded) == Ok(t.world)
  {
    FifoOver(w, es);
    var s := Exec(Initial(w), es);
    StepFifo(w, s, Round);
    var t := Step(s, Round);
    assert t.handled + [] == t.handled;
  }

  /** The number of rounds is the number of acknowledgements, and never exceeds the number of
      deliveries. */
  lemma TickAccounting(w: World, es: seq<Event>)
    requires !Exec(Initial(w), es).sim.Crashed?
    ensures var s := Exec(Initial(w), es);
      && s.tick <= s.calls && |s.sent| == 2 * s.tick
      && forall k :: 0 <= k < s.tick ==> s.sent[2 * k].Outgoing? && s.sent[2 * k + 1] == TickedClient
  {
    EveryRun(w, es);
  }

  ghost predicate ReadsRound(h: BundleHeader, body: Bytes, earlier: seq<Bytes>, own: seq<Bytes>) {
    ReadsAs(h, body, OUR_ID, SERVER_ID, earlier, own)
  }

  /** The outgoing bundle of round k of any run, under the header that the peer reads. */
  lemma OutgoingDecodes(w: World, es: seq<Event>, k: nat)
    requires var s := Exec(Initial(w), es); !s.sim.Crashed? && k < s.tick && k < |s.rounds|
    ensures var s := Exec(Initial(w), es);
      && 2 * k < |s.sent|
      && var o := Content(s.sent[2 * k]);
      && ReadV1(MakeV1(Header(o))) == Ok(Narrow(Header(o)))
      && ReadsRound(Narrow(Header(o)), Body(o), Flatten(s.rounds[..k]), s.rounds[k])
  {
    EveryRun(w, es);
    var s := Exec(Initial(w), es);
    V1ReadMake(Header(Content(s.sent[2 * k])));
    ReusedOnWire(Flatten(s.rounds[..k]), s.rounds[k], OUR_ID, SERVER_ID);
    assert Content(s.sent[2 * k]) == Collected(s.rounds[..k], s.rounds[k]);
  }

  /** A round of 256 messages, or of any multiple, reaches the peer as a bundle of none. */
  lemma FullRoundIsLost(h: BundleHeader, body: Bytes, earlier: seq<Bytes>, own: seq<Bytes>)
    requires ReadsRound(h, body, earlier, own) && |own| % 256 == 0
    ensures var (c, r) := Deserialize(EMPTY, h, body); r.Ok? && c.types == []
  {
  }

  // ---------- what brings a run down ----------

  /** A delivery that does not decode. */
  predicate Undecodable(e: Event, why: Failure) {
    e.Receive? && e.input != [] && Deserialize(EMPTY, e.header, e.input).1 == Raised(why)
  }

  lemma StepCrash(s: State, e: Event, why: Failure)
    requires !s.sim.Crashed? && Step(s, e).sim == Crashed(why)
    ensures Undecodable(e, why) || HandleBundles(s.world, s.queue) == Raised(why)
  {
  }

  /** A run is brought down only by a delivery that does not decode, or by handling, in order, the
      bundles that were decoded before. */
  lemma {:induction false} CrashHasCause(w: World, es: seq<Event>, why: Failure)
    requires Exec(Initial(w), es).sim == Crashed(why)
    ensures exists i ::
      && 0 <= i < |es| && !Exec(Initial(w), es[..i]).sim.Crashed?
      && (Undecodable(es[i], why) || HandleBundles(w, Exec(Initial(w), es[..i]).decoded) == Raised(why))
    decreases |es|
  {
    var init, e := es[..|es| - 1], es[|es| - 1];
    var s := Exec(Initial(w), init);
    ExecLast(Initial(w), es);
    if s.sim.Crashed? {
      CrashHasCause(w, init, why);
      var i :| 0 <= i < |init| && !Exec(Initial(w), init[..i]).sim.Crashed?
        && (Undecodable(init[i], why) || HandleBundles(w, Exec(Initial(w), init[..i]).decoded) == Raised(why));
      assert init[..i] == es[..i];
    } else {
      StepCrash(s, e, why);
      FifoOver(w, init);
      HandleBundlesAppend(w, s.handled, s.queue);
    }
  }

  lemma {:induction false} ExecLast(s: State, es: seq<Event>)
    requires es != []
    ensures Exec(s, es) == Step(Exec(s, es[..|es| - 1]), es[|es| - 1])
    decreases |es|
  {
    if |es| > 1 {
      ExecLast(Step(s, es[0]), es[1..]);
      assert es[1..][..|es| - 2] == es[..|es| - 1][1..];
    } else {
      assert es[1..] == [] && es[..0] == [];
    }
  }

  /** And such a delivery always brings it down. */
  lemma {:induction false} UndecodableCrashes(s: State, es: seq<Event>, i: nat, why: Failure)
    requires i < |es| && Undecodable(es[i], why)
    ensures Exec(s, es).sim.Crashed?
    decreases |es|
  {
    if i > 0 {
      UndecodableCrashes(Step(s, es[0]), es[1..], i - 1, why);
    } else {
      DownStays(Step(s, es[0]), es[1..]);
    }
  }

  lemma {:induction false} DownStays(s: State, es: seq<Event>)
    requires s.sim.Crashed?
    ensures Exec(s, es) == s
    decreases |es|
  {
    if es != [] { DownStays(s, es[1..]); }
  }

  // ---------- the acknowledgement ----------

  /** The acknowledgement is one message of type `ticked_client`. */
  lemma AcknowledgementDecodes()
    ensures var o := Content(TickedClient);
      var (c, r) := Deserialize(EMPTY, Narrow(Header(o)), Body(o));
      r.Ok? && c.senderId == OUR_ID && c.types == ["ticked_client"]
  {
    ClipTick();
    PairLength("msg_type", "ticked_client");
    SingleOfType(TICK_TREE, "ticked_client");
  }

  lemma SingleOfType(v: Json, kind: Bytes)
    requires Valid(v) && v.Obj? && |Print(v, false)| < 0x100_0000 && Clip(v) == v && MessageType(v) == Ok(kind)
    ensures var o := Bundle(OUR_ID, SERVER_ID, [Print(v, false)]);
      var (c, r) := Deserialize(EMPTY, Narrow(Header(o)), Body(o));
      r.Ok? && c.senderId == OUR_ID && c.types == [kind]
  {
    PrintedBundles.OneRoundTrip(OUR_ID, SERVER_ID, v);
  }

  lemma {:induction false} EscapeLength(s: Bytes)
    ensures |Escape(s)| <= 6 * |s|
  {
    if s != [] { EscapeLength(s[1..]); }
  }

  lemma PairLength(name: Bytes, text: Bytes)
    ensures |Print(Obj([Member(name, Str(text))]), false)| <= 6 * (|name| + |text|) + 7
  {
    var m := Member(name, Str(text));
    EscapeLength(CString(name));
    EscapeLength(CString(text));
    assert PrintMembers([m][1..], false, false) == [];
    assert |PrintMember(m, false)| == |Quote(name)| + 1 + |Quote(text)|;
  }

  lemma ClipTick()
    ensures Clip(TICK_TREE) == TICK_TREE && MessageType(TICK_TREE) == Ok("ticked_client")
  {
    assert NulFreeText("msg_type") && NulFreeText("ticked_client");
    ClipFixed(TICK_TREE);
    assert TICK_TREE.members[1..] == [];
  }
}
