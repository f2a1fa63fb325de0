/**
 The broker: a network thread that receives bundles and a simulation thread that
 handles them, sharing one mutex.

 Each method below that takes the mutex is one atomic step. `Step` gives its
 effect on the shared state together with what has happened so far, and
 BrokerRuns.dfy proves what every interleaving of steps keeps.
 */
module Broker {
  import opened Octets
  import opened JsonText
  import opened BundleVersion
  import opened Serializer
  import opened Conglomerate
  import opened Deserializer
  import PrintedBundles
  import opened AgentRegistry

  /** A FIFO queue whose every operation is atomic. */
  class ThreadSafeQueue<T> {
    var messageList: seq<T>

    constructor ()
      ensures messageList == []
    {
      messageList := [];
    }

    method Push(item: T)
      modifies this
      ensures messageList == old(messageList) + [item]
    {
      messageList := messageList + [item];
    }

    method Pop() returns (item: Option<T>)
      modifies this
      ensures old(messageList) == [] ==> item == None && messageList == []
      ensures old(messageList) != [] ==> item == Some(old(messageList)[0]) && messageList == old(messageList)[1..]
    {
      if messageList != [] {
        item := Some(messageList[0]);
        messageList := messageList[1..];
      } else {
        item := None;
      }
    }

    method Size() returns (n: nat)
      ensures n == |messageList|
    {
      n := |messageList|;
    }

    method Clear()
      modifies this
      ensures messageList == []
    {
      messageList := [];
    }
  }

  // ---------- handling a bundle ----------

  function HandleFrom(w: World, c: Conglom, i: nat): Result<World>
    requires |c.types| == |c.trees| && i <= |c.types|
    decreases |c.types| - i
  {
    if i == |c.types| then Ok(w)
    else
      var v :- Handle(w, c.types[i], c.trees[i]);
      HandleFrom(v, c, i + 1)
  }

  /** A bundle whose vectors run in parallel, as the decoder leaves them. */
  type Bundled = c: Conglom | |c.types| == |c.trees| witness EMPTY

  function HandleBundle(w: World, c: Bundled): Result<World> {
    HandleFrom(w, c, 0)
  }

  function HandleBundles(w: World, cs: seq<Bundled>): Result<World>
    decreases |cs|
  {
    if cs == [] then Ok(w)
    else
      var v :- HandleBundle(w, cs[0]);
      HandleBundles(v, cs[1..])
  }

  // ---------- the two threads' shared state ----------

  /** A bundle the broker wrote to its connection: what it had collected, or the
      acknowledgement that ends a round. */
  datatype Sent = Outgoing(collected: Ongoing) | TickedClient

  const TICK_TREE := Obj([Member("msg_type", Str("ticked_client"))])

  /** The object a sent bundle was serialized from; the acknowledgement has one of its own. */
  function Content(b: Sent): Ongoing {
    match b
    case Outgoing(o) => o
    case TickedClient => Bundle(OUR_ID, SERVER_ID, [Print(TICK_TREE, false)])
  }

  /** `Left`: the simulation thread saw a closed connection and did not reschedule itself. */
  datatype Sim = Running | Left | Crashed(why: Failure)

  datatype State = State(
    paused: bool,
    queue: seq<Bundled>,
    open: bool,
    outgoing: Ongoing,
    tick: nat,
    world: World,
    sim: Sim,
    // what has happened so far
    calls: nat,
    decoded: seq<Bundled>,
    handled: seq<Bundled>,
    sent: seq<Sent>,
    rounds: seq<seq<Bytes>>,
    forwarded: seq<Bytes>)

  function Initial(w: World): State {
    State(true, [], true, Begin(FRESH, OUR_ID, SERVER_ID), 0, w, Running, 0, [], [], [], [], [])
  }

  /** The network thread delivers a bundle, or closes the socket; the simulation thread tries
      the mutex once, or forwards a packet's message. */
  datatype Event = Receive(header: BundleHeader, input: Bytes) | Close | Round | Forward(msg: Bytes)

  function Crash(s: State, why: Failure): State {
    s.(sim := Crashed(why))
  }

  function Received(s: State, header: BundleHeader, input: Bytes): State {
    if input == [] then s.(paused := false, calls := s.calls + 1)
    else
      DecodeRanges(header, input);
      var r := Deserialize(EMPTY, header, input).1;
      if r.Raised? then Crash(s, r.why)
      else
        var c := Deserialize(EMPTY, header, input).0;
        s.(paused := false, calls := s.calls + 1, queue := s.queue + [c], decoded := s.decoded + [c])
  }

  function Paused(s: State): State {
    if s.sim != Running || s.paused then s
    else if !s.open then s.(paused := true, sim := Left)
    else
      match HandleBundles(s.world, s.queue)
      case Raised(why) => Crash(s, why)
      case Ok(w) => Finished(s.(paused := true, queue := [], handled := s.handled + s.queue, world := w))
  }

  function Finished(s: State): State {
    s.(sent := s.sent + [Outgoing(s.outgoing), TickedClient],
       outgoing := Begin(s.outgoing, OUR_ID, SERVER_ID),
       rounds := s.rounds + [s.forwarded], forwarded := [],
       tick := s.tick + 1)
  }

  function Step(s: State, e: Event): State {
    if s.sim.Crashed? then s
    else
      match e
      case Receive(header, input) => Received(s, header, input)
      case Close => s.(open := false)
      case Round => Paused(s)
      case Forward(msg) => s.(outgoing := Add(s.outgoing, msg), forwarded := s.forwarded + [msg])
  }

  function Exec(s: State, es: seq<Event>): State
    decreases |es|
  {
    if es == [] then s else Exec(Step(s, es[0]), es[1..])
  }

  // ---------- the broker object ----------

  class MessageBroker {
    const incoming: ThreadSafeQueue<Bundled>
    const outgoing: OngoingSerialization
    const registry: Registry
    var paused: bool
    var open: bool
    var globalTick: nat
    var sim: Sim
    ghost var sent: seq<Sent>
    ghost var calls: nat
    ghost var decoded: seq<Bundled>
    ghost var handled: seq<Bundled>
    ghost var rounds: seq<seq<Bytes>>
    ghost var forwarded: seq<Bytes>

    ghost function View(): State
      reads this, incoming, outgoing, registry
    {
      State(paused, incoming.messageList, open, outgoing.View(), globalTick, registry.View(), sim,
            calls, decoded, handled, sent, rounds, forwarded)
    }

    constructor (registry: Registry)
      ensures View() == Initial(registry.View())
      ensures fresh(incoming) && fresh(outgoing) && this.registry == registry
    {
      incoming := new ThreadSafeQueue();
      var o := new OngoingSerialization();
      o.SerializeBegin(OUR_ID, SERVER_ID);
      outgoing := o;
      this.registry := registry;
      paused, open, globalTick, sim := true, true, 0, Running;
      sent := [];
      calls, decoded, handled, rounds, forwarded := 0, [], [], [], [];
    }

    /** Decode and queue a bundle; the result says whether it ends the server's tick. */
    method ParsePacket(header: BundleHeader, input: Bytes) returns (r: Result<bool>)
      modifies this, incoming
      ensures input == [] ==> r == Ok(true) && View() == old(View())
      ensures input != [] && r.Raised? ==>
        View() == old(View()) && Deserialize(EMPTY, header, input).1 == Raised(r.why)
      ensures input != [] && r.Ok? ==>
        var c := Deserialize(EMPTY, header, input).0;
        && Deserialize(EMPTY, header, input).1.Ok?
        && r.value == ("ticked_simmob" in c.types)
        && |c.types| == |c.trees|
        && View() == old(View()).(queue := old(View()).queue + [c], decoded := old(View()).decoded + [c])
    {
      if input == [] {
        return Ok(true);
      }
      DecodeRanges(header, input);
      var temp := new MessageConglomerate();
      var done := DeserializeV1(header, input, temp);
      if done.Raised? {
        return Raised(done.why);
      }
      var res := false;
      var i := 0;
      while i < |temp.messageBases|
        invariant 0 <= i <= |temp.messageBases|
        invariant !res && "ticked_simmob" !in temp.messageBases[..i]
      {
        if temp.messageBases[i] == "ticked_simmob" {
          res := true;
          break;
        }
        i := i + 1;
      }
      var c := Conglom(temp.senderId, temp.messagesV1, temp.offsetsV1, temp.messagesJson, temp.messageBases);
      incoming.Push(c);
      decoded := decoded + [c];
      r := Ok(res);
    }

    /** The network thread's critical section. */
    method OnMessageReceived(header: BundleHeader, input: Bytes)
      requires !sim.Crashed?
      modifies this, incoming
      ensures View() == Step(old(View()), Receive(header, input))
    {
      var r := ParsePacket(header, input);
      if r.Raised? {
        sim := Crashed(r.why);
        return;
      }
      paused := false;
      calls := calls + 1;
    }

    method ProcessIncoming() returns (r: Result<()>)
      modifies this`handled, incoming, registry
      ensures match HandleBundles(old(registry.View()), old(incoming.messageList))
        case Raised(why) => r == Raised(why)
        case Ok(w) => r == Ok(()) && registry.View() == w && incoming.messageList == []
                      && handled == old(handled) + old(incoming.messageList)
    {
      ghost var queue := incoming.messageList;
      ghost var goal := HandleBundles(registry.View(), queue);
      ghost var done := 0;
      var conglom := incoming.Pop();
      while conglom.Some?
        invariant 0 <= done <= |queue|
        invariant HandleBundles(registry.View(), queue[done..]) == goal
        invariant handled == old(handled) + queue[..done]
        invariant conglom == (if done < |queue| then Some(queue[done]) else None)
        invariant incoming.messageList == (if done < |queue| then queue[done + 1..] else [])
        decreases |queue| - done
      {
        assert queue[done..][1..] == queue[done + 1..];
        r := HandleConglom(conglom.value);
        if r.Raised? {
          return;
        }
        handled := handled + [conglom.value];
        conglom := incoming.Pop();
        assert queue[..done + 1] == queue[..done] + [queue[done]];
        done := done + 1;
      }
      assert queue[..done] == queue;
      r := Ok(());
    }

    method HandleConglom(c: Bundled) returns (r: Result<()>)
      modifies registry
      ensures match HandleBundle(old(registry.View()), c)
        case Raised(why) => r == Raised(why)
        case Ok(w) => r == Ok(()) && registry.View() == w
    {
      ghost var goal := HandleBundle(registry.View(), c);
      var i := 0;
      while i < |c.types|
        invariant 0 <= i <= |c.types|
        invariant HandleFrom(registry.View(), c, i) == goal
      {
        r := registry.HandleMessage(c.types[i], c.trees[i]);
        if r.Raised? {
          return;
        }
        i := i + 1;
      }
      r := Ok(());
    }

    /** A synchronous write to the connection. */
    method ConnSend(header: BundleHeader, body: Bytes, ghost what: Sent)
      requires header == Header(Content(what)) && body == Body(Content(what))
      modifies this`sent
      ensures sent == old(sent) + [what]
    {
      sent := sent + [what];
    }

    method SendOutgoing()
      modifies this`sent, outgoing
      ensures sent == old(sent) + [Outgoing(old(outgoing.View()))]
      ensures outgoing.View() == Begin(old(outgoing.View()), OUR_ID, SERVER_ID)
    {
      var head, msg := outgoing.SerializeEnd();
      ConnSend(head, msg, Outgoing(outgoing.View()));
      outgoing.SerializeBegin(OUR_ID, SERVER_ID);
    }

    method SendTicked()
      modifies this`sent
      ensures sent == old(sent) + [TickedClient]
    {
      var text := Print(TICK_TREE, false);
      var head, msg := PrintedBundles.SerializeOne(text);
      ConnSend(head, msg, TickedClient);
    }

    /** The network thread sees the end of the stream. */
    method CloseSocket()
      requires !sim.Crashed?
      modifies this`open
      ensures View() == Step(old(View()), Close)
    {
      open := false;
    }

    /** An agent passes a received packet's message on to the server. */
    method ForwardMessage(msg: Bytes)
      requires !sim.Crashed?
      modifies this`forwarded, outgoing
      ensures View() == Step(old(View()), Forward(msg))
    {
      outgoing.AddGeneric(msg);
      forwarded := forwarded + [msg];
    }

    /** One turn of the simulation thread's wait loop: a critical section that acts only when
        the network thread has cleared the flag. After a crash only the fact is promised. */
    method Pause()
      requires sim == Running
      modifies this, incoming, outgoing, registry
      ensures var t := Step(old(View()), Round);
        if t.sim.Crashed? then sim == t.sim else View() == t
    {
      if paused {
        return;
      }
      paused := true;
      if !open {
        sim := Left;
        return;
      }
      var r := ProcessIncoming();
      if r.Raised? {
        sim := Crashed(r.why);
        return;
      }
      FinishRound();
    }

    /** Send what was collected, then the acknowledgement, and count the round. */
    method FinishRound()
      modifies this, outgoing
      ensures View() == Finished(old(View()))
    {
      SendOutgoing();
      SendTicked();
      rounds, forwarded := rounds + [forwarded], [];
      globalTick := globalTick + 1;
    }
  }
}
