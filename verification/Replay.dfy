/** Replaying a trace: every tick through the codec, the queue and the handlers, on the clock. */
module Replay {
  import opened Octets
  import opened Serializer
  import opened Conglomerate
  import opened Deserializer
  import opened Messages
  import opened AgentRegistry
  import Broker
  import opened Trace
  import opened ReplayContent
  import opened ReplayClock

  /** A tick of the trace: its time, and the order in which its map of places is walked. */
  datatype Step = TickStep(time: nat, order: seq<Bytes>, tick: TimeTick)

  /** The order names agents that have a place. */
  predicate Placed(s: Step) {
    forall i :: 0 <= i < |s.order| ==> s.order[i] in s.tick.updateAgent
  }

  ghost predicate Replayable(ss: seq<Step>) {
    && (forall i :: 0 <= i < |ss| ==> Tickable(ss[i].order, ss[i].tick))
    && (forall i, j :: 0 <= i < j < |ss| ==> ss[i].time < ss[j].time)
  }

  // ---------- one tick through the queue ----------

  /** The bundle that replaying a tick puts into the queue. */
  function Pushed(s: Step): Result<Broker.Bundled>
    requires Placed(s)
  {
    var o := TickBundle(s.order, s.tick);
    DecodeRanges(Header(o), Body(o));
    var (c, r) := Deserialize(EMPTY, Header(o), Body(o));
    if r.Raised? then Raised(r.why) else Ok(c)
  }

  /** Parse results handled one after another, up to the first that raises. */
  function Applied(w: World, rs: seq<Result<Command>>): Result<World>
    decreases |rs|
  {
    if rs == [] then Ok(w)
    else
      var c :- rs[0];
      var v :- Apply(w, c);
      Applied(v, rs[1..])
  }

  lemma {:induction false} HandleIsApplied(w: World, c: Broker.Bundled, i: nat)
    requires i <= |c.types|
    ensures Broker.HandleFrom(w, c, i) == Applied(w, Commands(c.types, c.trees)[i..])
    decreases |c.types| - i
  {
    var rs := Commands(c.types, c.trees);
    if i < |c.types| {
      assert rs[i..][0] == rs[i] && rs[i..][1..] == rs[i + 1..];
      var r := ParseCommand(c.types[i], c.trees[i]);
      if r.Ok? && Apply(w, r.value).Ok? {
        HandleIsApplied(Apply(w, r.value).value, c, i + 1);
      }
    }
  }

  lemma {:induction false} AppliedAll(w: World, rs: seq<Result<Command>>, cs: seq<Command>)
    requires |rs| == |cs| && forall i :: 0 <= i < |rs| ==> rs[i] == Ok(cs[i])
    ensures Applied(w, rs) == ApplyAll(w, cs)
    decreases |rs|
  {
    if rs != [] && Apply(w, cs[0]).Ok? {
      AppliedAll(Apply(w, cs[0]).value, rs[1..], cs[1..]);
    }
  }

  /** Location updates and sends never raise in the registry. */
  predicate Harmless(c: Command) {
    c.Locations? || c.Send?
  }

  lemma {:induction false} AppliedRaises(w: World, rs: seq<Result<Command>>, k: nat)
    requires k < |rs| && rs[k].Raised?
    requires forall i :: 0 <= i < |rs| ==> if rs[i].Ok? then Harmless(rs[i].value) else rs[i].why == BadField
    ensures Applied(w, rs) == Raised(BadField)
    decreases |rs|
  {
    if rs[0].Ok? {
      AppliedRaises(Apply(w, rs[0].value).value, rs[1..], k - 1);
    }
  }

  lemma {:induction false} HarmlessAll(w: World, cs: seq<Command>)
    requires forall i :: 0 <= i < |cs| ==> Harmless(cs[i])
    ensures ApplyAll(w, cs).Ok?
    decreases |cs|
  {
    if cs != [] { HarmlessAll(Apply(w, cs[0]).value, cs[1..]); }
  }

  /** Every multicast of the tick has a recipient. */
  predicate Addressed(tick: TimeTick) {
    forall i :: 0 <= i < |tick.multicast| ==> tick.multicast[i].receivers != []
  }

  lemma HarmlessTick(s: Step)
    requires Placed(s)
    ensures forall i :: 0 <= i < |TickCommands(s.order, s.tick)| ==> Harmless(TickCommands(s.order, s.tick)[i])
  {
  }

  lemma AddressedApplied(w: World, s: Step)
    requires Placed(s)
    requires Addressed(s.tick)
    ensures Applied(w, Outcomes(s.order, s.tick)) == ApplyAll(w, TickCommands(s.order, s.tick))
  {
    var rs, cs := Outcomes(s.order, s.tick), TickCommands(s.order, s.tick);
    forall i | 0 <= i < |rs| ensures rs[i] == Ok(cs[i]) {
      if s.order != [] && i > 0 { assert s.tick.multicast[i - 1].receivers != []; }
    }
    AppliedAll(w, rs, cs);
  }

  lemma UnaddressedRaises(w: World, s: Step)
    requires Placed(s)
    requires !Addressed(s.tick)
    ensures Applied(w, Outcomes(s.order, s.tick)) == Raised(BadField)
  {
    var k :| 0 <= k < |s.tick.multicast| && s.tick.multicast[k].receivers == [];
    SendAt(s.order, s.tick, k);
    AppliedRaises(w, Outcomes(s.order, s.tick), (if s.order == [] then 0 else 1) + k);
  }

  lemma OutcomesApplied(w: World, s: Step)
    requires Placed(s)
    ensures ApplyAll(w, TickCommands(s.order, s.tick)).Ok?
    ensures Applied(w, Outcomes(s.order, s.tick)) ==
      if Addressed(s.tick) then ApplyAll(w, TickCommands(s.order, s.tick)) else Raised(BadField)
  {
    HarmlessTick(s);
    HarmlessAll(w, TickCommands(s.order, s.tick));
    if Addressed(s.tick) { AddressedApplied(w, s); } else { UnaddressedRaises(w, s); }
  }

  /** A tick that the queue takes and the handlers survive. */
  predicate Healthy(s: Step)
    requires Placed(s)
  {
    Pushable(s.order, s.tick) && Addressed(s.tick)
  }

  /** A tick is pushed exactly when it is pushable. It is then handled exactly when every multicast
      has a recipient, and that is applying its commands. */
  lemma TickHandled(w: World, s: Step)
    requires Tickable(s.order, s.tick)
    ensures Pushed(s).Ok? <==> Pushable(s.order, s.tick)
    ensures var handled := if Addressed(s.tick) then ApplyAll(w, TickCommands(s.order, s.tick)) else Raised(BadField);
      Pushed(s).Ok? ==> Broker.HandleBundle(w, Pushed(s).value) == handled
    ensures ApplyAll(w, TickCommands(s.order, s.tick)).Ok?
  {
    TickArrives(s.order, s.tick);
    OutcomesApplied(w, s);
    if Pushed(s).Ok? {
      var c := Pushed(s).value;
      HandleIsApplied(w, c, 0);
      assert Commands(c.types, c.trees)[0..] == Commands(c.types, c.trees);
    }
  }

  // ---------- a whole replay ----------

  function Times(ss: seq<Step>): (r: seq<nat>)
    ensures |r| == |ss|
  {
    seq(|ss|, i requires 0 <= i < |ss| => ss[i].time)
  }

  function PushedAt(ss: seq<Step>, i: nat): Result<Broker.Bundled>
    requires Replayable(ss) && i < |ss|
  {
    assert Tickable(ss[i].order, ss[i].tick);
    Pushed(ss[i])
  }

  /** What the clock drives is the codec, then the handlers. */
  ghost predicate Drives(work: Work<World, Broker.Bundled>, ss: seq<Step>) {
    && (forall i {:trigger Pushed(ss[i])} :: 0 <= i < |ss| && Placed(ss[i]) ==> work.push(i) == Pushed(ss[i]))
    && (forall w, c {:trigger Broker.HandleBundle(w, c)} :: work.handle(w, c) == Broker.HandleBundle(w, c))
  }

  /** The commands of a list of ticks, in order. */
  function CommandsOver(ss: seq<Step>): seq<Command>
    requires forall i :: 0 <= i < |ss| ==> Tickable(ss[i].order, ss[i].tick)
  {
    if ss == [] then []
    else
      var last := ss[|ss| - 1];
      assert Tickable(last.order, last.tick);
      CommandsOver(ss[..|ss| - 1]) + TickCommands(last.order, last.tick)
  }

  ghost predicate AllHealthy(ss: seq<Step>, k: nat)
    requires Replayable(ss) && k <= |ss|
  {
    forall i {:trigger Healthy(ss[i])} :: 0 <= i < k ==> Tickable(ss[i].order, ss[i].tick) && Healthy(ss[i])
  }

  lemma CommandsNext(ss: seq<Step>, w: World, k: nat)
    requires Replayable(ss) && k < |ss| && ApplyAll(w, CommandsOver(ss[..k])).Ok?
    ensures ApplyAll(w, CommandsOver(ss[..k + 1]))
      == ApplyAll(ApplyAll(w, CommandsOver(ss[..k])).value, TickCommands(ss[k].order, ss[k].tick))
  {
    assert ss[..k + 1][..k] == ss[..k];
    ApplyAllAppend(w, CommandsOver(ss[..k]), TickCommands(ss[k].order, ss[k].tick));
  }

  lemma EffectNext(ss: seq<Step>, work: Work<World, Broker.Bundled>, w: World, k: nat)
    requires Replayable(ss) && Drives(work, ss) && k < |ss| && Effect(work, w, k).Ok?
    ensures var v, r := Effect(work, w, k).value, Effect(work, w, k + 1);
      && (Healthy(ss[k]) ==> r == ApplyAll(v, TickCommands(ss[k].order, ss[k].tick)))
      && (!Healthy(ss[k]) ==> r.Raised?)
      && (Pushable(ss[k].order, ss[k].tick) && !Addressed(ss[k].tick) ==> r == Raised(BadField))
    ensures ApplyAll(Effect(work, w, k).value, TickCommands(ss[k].order, ss[k].tick)).Ok?
  {
    var v := Effect(work, w, k).value;
    TickHandled(v, ss[k]);
    if Pushed(ss[k]).Ok? {
      assert work.handle(v, Pushed(ss[k]).value) == Broker.HandleBundle(v, Pushed(ss[k]).value);
    }
  }

  lemma {:induction false} HealthyEffect(ss: seq<Step>, work: Work<World, Broker.Bundled>, w: World, k: nat)
    requires Replayable(ss) && Drives(work, ss) && k <= |ss| && AllHealthy(ss, k)
    ensures Effect(work, w, k).Ok? && Effect(work, w, k) == ApplyAll(w, CommandsOver(ss[..k]))
    decreases k
  {
    if k == 0 {
      assert ss[..0] == [];
    } else {
      assert Healthy(ss[k - 1]);
      HealthyEffect(ss, work, w, k - 1);
      EffectNext(ss, work, w, k - 1);
      CommandsNext(ss, w, k - 1);
    }
  }

  lemma EffectHealthy(ss: seq<Step>, work: Work<World, Broker.Bundled>, w: World, k: nat, i: nat)
    requires Replayable(ss) && Drives(work, ss) && i < k <= |ss| && Effect(work, w, k).Ok?
    ensures Tickable(ss[i].order, ss[i].tick) && Healthy(ss[i])
  {
    if Effect(work, w, i).Raised? { EffectStops(work, w, i, k); }
    if Effect(work, w, i + 1).Raised? { EffectStops(work, w, i + 1, k); }
    EffectNext(ss, work, w, i);
  }

  /** Pushing and handling the first k ticks one after another raises unless all of them are
      healthy, and then is applying their commands. */
  lemma EffectOfTicks(ss: seq<Step>, work: Work<World, Broker.Bundled>, w: World, k: nat)
    requires Replayable(ss) && Drives(work, ss) && k <= |ss|
    ensures Effect(work, w, k).Ok? <==> AllHealthy(ss, k)
    ensures AllHealthy(ss, k) ==> Effect(work, w, k) == ApplyAll(w, CommandsOver(ss[..k]))
  {
    if AllHealthy(ss, k) {
      HealthyEffect(ss, work, w, k);
    } else if Effect(work, w, k).Ok? {
      forall i | 0 <= i < k ensures Tickable(ss[i].order, ss[i].tick) && Healthy(ss[i]) {
        EffectHealthy(ss, work, w, k, i);
      }
    }
  }

  /** A replay reaches its stop exactly when the trace has at least ten ticks and every one of
      them is healthy. It then stops on time, and the world is what the ticks' commands make of it. */
  lemma ReplayOutcome(ss: seq<Step>, work: Work<World, Broker.Bundled>, w: World)
    requires Replayable(ss) && Drives(work, ss)
    ensures ReachesStop(Times(ss), work, w) <==> |ss| >= 10 && AllHealthy(ss, |ss|)
    ensures ReachesStop(Times(ss), work, w) ==> StoppedOnTime(Times(ss), work, w, ApplyAll(w, CommandsOver(ss)))
  {
    ReplayStops(Times(ss), work, w);
    EffectOfTicks(ss, work, w, |ss|);
    assert ss[..|ss|] == ss;
  }

  /** A replay of a long trace ends with the first tick that is not healthy, after every tick
      before it has run; if that tick could be pushed, it raised in the parser. */
  lemma ReplayFails(ss: seq<Step>, work: Work<World, Broker.Bundled>, w: World, k: nat, n: nat)
    requires Replayable(ss) && Drives(work, ss)
    requires |ss| >= 10 && k < |ss| && k < n && AllHealthy(ss, k) && !Healthy(ss[k])
    ensures var c := After(Times(ss), work, w, n);
      && c.status.Failed? && c.runs == Expected(Times(ss), k)
      && (Pushable(ss[k].order, ss[k].tick) ==> c.status == Failed(BadField))
  {
    EffectOfTicks(ss, work, w, k);
    EffectNext(ss, work, w, k);
    FailsAtFirst(Times(ss), work, w, k, n);
  }

  /** A replay that is no longer scheduled has stopped as described, or never will. */
  lemma Concluded(ss: seq<Step>, work: Work<World, Broker.Bundled>, w: World, n: nat)
    requires Replayable(ss) && Drives(work, ss) && After(Times(ss), work, w, n).status != Scheduled
    ensures var c := After(Times(ss), work, w, n);
      && (c.status == Stopped <==> |ss| >= 10 && AllHealthy(ss, |ss|))
      && (c.status == Stopped ==> c.runs == Expected(Times(ss), |ss|) && Ok(c.world) == ApplyAll(w, CommandsOver(ss)))
  {
    EffectOfTicks(ss, work, w, |ss|);
    assert ss[..|ss|] == ss;
    Ended(Times(ss), work, w, n);
  }

  // ---------- the replay object ----------

  /** The replay loop of the simulator: at most one step is ever scheduled. */
  class Replayer {
    const ss: seq<Step>
    const broker: Broker.MessageBroker
    ghost const work: Work<World, Broker.Bundled>
    var currTick: nat
    var interval: nat
    var now: nat
    var runs: seq<Replayed>
    var status: Status

    ghost function View(): Clock<World>
      reads this, broker, broker.registry
    {
      Clock(currTick, interval, now, runs, broker.registry.View(), status)
    }

    ghost predicate Valid() {
      Replayable(ss) && Drives(work, ss)
    }

    constructor (ss: seq<Step>, registry: Registry)
      requires Replayable(ss)
      ensures Valid()
      ensures this.ss == ss && View() == Ready(registry.View())
      ensures broker.registry == registry && broker.incoming.messageList == []
      ensures fresh(broker) && fresh(broker.incoming)
    {
      this.ss := ss;
      var b := new Broker.MessageBroker(registry);
      broker := b;
      work := Work((i: nat) => if i < |ss| then PushedAt(ss, i) else Raised(OutOfBounds),
                   (w, c) => Broker.HandleBundle(w, c));
      currTick, interval, now, runs, status := 0, 0, 0, [], Scheduled;
    }

    /** Serialize the current tick, decode it at once, and queue the result. */
    method PushToQueue() returns (r: Result<()>)
      requires Valid() && currTick < |ss|
      modifies broker.incoming
      ensures match Pushed(ss[currTick])
        case Raised(why) => r == Raised(why) && broker.incoming.messageList == old(broker.incoming.messageList)
        case Ok(c) => r == Ok(()) && broker.incoming.messageList == old(broker.incoming.messageList) + [c]
    {
      var s := ss[currTick];
      assert Tickable(s.order, s.tick);
      var messages, done := PushTick(s.tick, s.order);
      if done.Raised? {
        return done;
      }
      var c := Conglom(messages.senderId, messages.messagesV1, messages.offsetsV1, messages.messagesJson,
                       messages.messageBases);
      assert Pushed(s) == Ok(c);
      broker.incoming.Push(c);
      r := Ok(());
    }

    /** One run. When a handler raises, only that fact is promised. */
    method Pause()
      requires Valid() && status == Scheduled && broker.incoming.messageList == []
      modifies this, broker`handled, broker.incoming, broker.registry
      ensures var t := Tick(Times(ss), work, old(View()));
        if t.status.Failed? then status == t.status else View() == t
      ensures status == Scheduled ==> old(currTick) < currTick < |ss| && broker.incoming.messageList == []
    {
      if currTick >= |ss| {
        status := Broken;
        return;
      }
      var absTick := ss[currTick].time;
      if absTick > 0 && |ss| / 10 == 0 {
        status := Broken;
        return;
      }
      assert work.push(currTick) == Pushed(ss[currTick]);
      var pushed := PushToQueue();
      if pushed.Raised? {
        status := Failed(pushed.why);
        return;
      }
      React(broker.incoming.messageList[0]);
    }

    /** Move on to the next tick, handle the one bundle in the queue, and schedule or stop. */
    method React(ghost bundle: Broker.Bundled)
      requires Valid() && status == Scheduled && currTick < |ss| && broker.incoming.messageList == [bundle]
      modifies this, broker`handled, broker.incoming, broker.registry
      ensures var t := ReplayClock.React(Times(ss), work, old(View()), bundle);
        if t.status.Failed? then status == t.status else View() == t
      ensures status == Scheduled ==> old(currTick) < currTick < |ss| && broker.incoming.messageList == []
    {
      var prevTick := currTick;
      currTick := currTick + 1;
      if currTick < |ss| {
        interval := ss[currTick].time - ss[prevTick].time;
      }
      if interval == 0 {
        status := Broken;
        return;
      }
      var handled := HandleQueue(bundle);
      if handled.Raised? {
        status := Failed(handled.why);
        return;
      }
      runs := runs + [Replayed(now, ss[prevTick].time)];
      if currTick < |ss| {
        now := now + interval;
      } else {
        status := Stopped;
      }
    }

    method HandleQueue(ghost bundle: Broker.Bundled) returns (r: Result<()>)
      requires Valid() && broker.incoming.messageList == [bundle]
      modifies broker`handled, broker.incoming, broker.registry
      ensures match work.handle(old(broker.registry.View()), bundle)
        case Raised(why) => r == Raised(why)
        case Ok(w) => r == Ok(()) && broker.registry.View() == w && broker.incoming.messageList == []
    {
      HandlesOne(broker.registry.View(), bundle);
      assert work.handle(broker.registry.View(), bundle) == Broker.HandleBundle(broker.registry.View(), bundle);
      r := broker.ProcessIncoming();
    }

    /** Run until nothing is scheduled; `n` counts the runs. */
    method RunAll() returns (ghost n: nat)
      requires Valid() && View() == Ready(broker.registry.View()) && broker.incoming.messageList == []
      modifies this, broker`handled, broker.incoming, broker.registry
      ensures status != Scheduled
      ensures var c := After(Times(ss), work, old(broker.registry.View()), n);
        c.status == status && (status == Stopped ==> View() == c)
    {
      n := 0;
      while status == Scheduled
        invariant var c := After(Times(ss), work, old(broker.registry.View()), n);
          if status.Failed? then c.status == status else View() == c
        invariant status == Scheduled ==> currTick <= |ss| && broker.incoming.messageList == []
        decreases status == Scheduled, |ss| - currTick
      {
        Pause();
        n := n + 1;
      }
    }

    /** Schedule the first run, and let the simulator run until nothing is scheduled. */
    method Start()
      requires Valid() && View() == Ready(broker.registry.View()) && broker.incoming.messageList == []
      modifies this, broker`handled, broker.incoming, broker.registry
      ensures status != Scheduled
      ensures status == Stopped <==> |ss| >= 10 && AllHealthy(ss, |ss|)
      ensures status == Stopped ==> runs == Expected(Times(ss), |ss|)
      ensures status == Stopped ==>
        Ok(broker.registry.View()) == ApplyAll(old(broker.registry.View()), CommandsOver(ss))
    {
      ghost var w := broker.registry.View();
      ghost var n := RunAll();
      Concluded(ss, work, w, n);
    }
  }

  lemma HandlesOne(w: World, c: Broker.Bundled)
    ensures Broker.HandleBundles(w, [c]) == Broker.HandleBundle(w, c)
  {
    assert [c][1..] == [];
  }
}
