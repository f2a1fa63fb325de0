/** From the peer's writes to the broker's handlers, across framing, decoding and the two threads. */
module EndToEnd {
  import opened Octets
  import opened JsonText
  import opened BundleVersion
  import Serializer
  import opened Conglomerate
  import opened Deserializer
  import opened Session
  import opened AgentRegistry
  import opened Broker
  import opened BrokerRuns

  /** The frames the network thread delivers in a run, in order. */
  function Inputs(es: seq<Event>): seq<Frame> {
    if es == [] then []
    else (if es[0].Receive? then [Frame(es[0].header, es[0].input)] else []) + Inputs(es[1..])
  }

  /** The bundles that frames decode to; an empty text, which the end of the stream hands on, is none. */
  function DecodeAll(fs: seq<Frame>): seq<Conglom> {
    if fs == [] then []
    else (if fs[0].text == [] then [] else [Deserialize(EMPTY, fs[0].header, fs[0].text).0]) + DecodeAll(fs[1..])
  }

  lemma {:induction false} DecodeAllAt(fs: seq<Frame>, i: nat)
    requires i < |fs| && forall j :: 0 <= j < |fs| ==> fs[j].text != []
    ensures |DecodeAll(fs)| == |fs| && DecodeAll(fs)[i] == Deserialize(EMPTY, fs[i].header, fs[i].text).0
    decreases |fs|
  {
    var tail := fs[1..];
    assert forall j :: 0 <= j < |tail| ==> tail[j] == fs[j + 1];
    if tail != [] { DecodeAllAt(tail, if i > 0 then i - 1 else 0); }
  }

  lemma {:induction false} EmptyIsNone(fs: seq<Frame>, last: Frame)
    requires last.text == []
    ensures DecodeAll(fs + [last]) == DecodeAll(fs)
  {
    if fs == [] {
      assert [last][1..] == [] && [] + [last] == [last];
    } else {
      assert (fs + [last])[1..] == fs[1..] + [last];
      EmptyIsNone(fs[1..], last);
    }
  }

  function Decoded(e: Event): seq<Conglom> {
    if e.Receive? && e.input != [] then [Deserialize(EMPTY, e.header, e.input).0] else []
  }

  lemma StepDecodes(s: State, e: Event)
    requires !Step(s, e).sim.Crashed?
    ensures Step(s, e).decoded == s.decoded + Decoded(e)
  {
    assert s.decoded + [] == s.decoded;
  }

  lemma FirstDecoded(es: seq<Event>)
    requires es != []
    ensures DecodeAll(Inputs(es)) == Decoded(es[0]) + DecodeAll(Inputs(es[1..]))
  {
    var e, later := es[0], Inputs(es[1..]);
    if e.Receive? {
      assert Inputs(es)[0] == Frame(e.header, e.input) && Inputs(es)[1..] == later;
    } else {
      assert Inputs(es) == later;
      assert [] + DecodeAll(later) == DecodeAll(later);
    }
  }

  lemma {:induction false} DecodedAre(s: State, es: seq<Event>)
    requires !Exec(s, es).sim.Crashed?
    ensures Exec(s, es).decoded == s.decoded + DecodeAll(Inputs(es))
    decreases |es|
  {
    if es == [] {
      assert s.decoded + [] == s.decoded;
    } else {
      var t := Step(s, es[0]);
      if t.sim.Crashed? { DownStays(t, es[1..]); }
      StepDecodes(s, es[0]);
      FirstDecoded(es);
      DecodedAre(t, es[1..]);
      Assoc(s.decoded, Decoded(es[0]), DecodeAll(Inputs(es[1..])));
    }
  }

  /** A delivered frame, and the bundle it decodes to. */
  ghost predicate Carries(f: Frame, l: Letter) {
    f.text != [] && Holds(Deserialize(EMPTY, f.header, f.text).0, l.sendId, l.msgs)
  }

  lemma DeliveredCarry(ls: seq<Letter>, chunks: seq<Bytes>)
    requires forall i :: 0 <= i < |ls| ==> Sendable(ls[i])
    requires Join(chunks) == WireAll(ls)
    ensures var frames := FeedAll(START, chunks).delivered;
      |frames| == |ls| && forall i :: 0 <= i < |ls| ==> Carries(frames[i], ls[i])
  {
    var frames := FeedAll(START, chunks).delivered;
    AsyncIsSync(chunks);
    ReadAllWire(ls);
    forall i | 0 <= i < |ls| ensures Carries(frames[i], ls[i]) {
      FreshRoundTrip(ls[i].sendId, ls[i].destId, ls[i].msgs);
    }
  }

  lemma DecodedHold(fs: seq<Frame>, ls: seq<Letter>)
    requires |fs| == |ls| && forall i :: 0 <= i < |ls| ==> Carries(fs[i], ls[i])
    ensures |DecodeAll(fs)| == |ls| && forall i :: 0 <= i < |ls| ==> Holds(DecodeAll(fs)[i], ls[i].sendId, ls[i].msgs)
  {
    assert forall i :: 0 <= i < |fs| ==> Carries(fs[i], ls[i]);
    if fs != [] { DecodeAllAt(fs, 0); }
    forall i | 0 <= i < |ls| ensures |DecodeAll(fs)| == |ls| && Holds(DecodeAll(fs)[i], ls[i].sendId, ls[i].msgs) {
      DecodeAllAt(fs, i);
      assert Carries(fs[i], ls[i]);
    }
  }

  /** What the network thread is handed: the complete frames, and the empty text once the stream has ended. */
  function HandedOn(chunks: seq<Bytes>, ended: bool): seq<Frame> {
    var r := FeedAll(START, chunks);
    if ended then Eof(r).delivered else r.delivered
  }

  lemma EndAddsNothing(chunks: seq<Bytes>, ended: bool)
    ensures DecodeAll(HandedOn(chunks, ended)) == DecodeAll(FeedAll(START, chunks).delivered)
  {
    var r := FeedAll(START, chunks);
    if ended { EmptyIsNone(r.delivered, Frame(r.incoming, [])); }
  }

  /** Bundles written by the peer, cut into chunks in any way and delivered in any interleaving
      with the simulation thread, whether or not the stream then ends, are all handled or queued,
      once each, in the order written, with the senders and messages they were built from. */
  lemma WrittenIsHandled(w: World, ls: seq<Letter>, chunks: seq<Bytes>, ended: bool, es: seq<Event>)
    requires forall i :: 0 <= i < |ls| ==> Sendable(ls[i])
    requires Join(chunks) == WireAll(ls)
    requires Inputs(es) == HandedOn(chunks, ended)
    requires !Exec(Initial(w), es).sim.Crashed?
    ensures var s := Exec(Initial(w), es);
      && s.handled + s.queue == s.decoded && |s.decoded| == |ls|
      && (forall i :: 0 <= i < |ls| ==> Holds(s.decoded[i], ls[i].sendId, ls[i].msgs))
      && HandleBundles(w, s.handled) == Ok(s.world)
  {
    DeliveredCarry(ls, chunks);
    DecodedHold(FeedAll(START, chunks).delivered, ls);
    EndAddsNothing(chunks, ended);
    RunDecodes(w, es);
    FifoOver(w, es);
  }

  lemma RunDecodes(w: World, es: seq<Event>)
    requires !Exec(Initial(w), es).sim.Crashed?
    ensures Exec(Initial(w), es).decoded == DecodeAll(Inputs(es))
  {
    DecodedAre(Initial(w), es);
    assert [] + DecodeAll(Inputs(es)) == DecodeAll(Inputs(es));
  }

  /** Any printed object with a usable `msg_type` makes such a bundle. */
  lemma SingleSendable(v: Json)
    requires Valid(v) && v.Obj? && |Print(v, false)| < 0x100_0000 && MessageType(Clip(v)).Ok?
    ensures Sendable(Letter(Serializer.OUR_ID, Serializer.SERVER_ID, [Print(v, false)]))
  {
    var text := Print(v, false);
    assert text + "" == text;
    PrintedAccepted(v, false, false);
    BundleOfOne(Serializer.OUR_ID, Serializer.SERVER_ID, text);
  }

  // ---------- the other direction: what the peer reads ----------

  /** A sent bundle, as it is written. */
  function SentFrame(b: Sent): Frame {
    Frame(Serializer.Header(Content(b)), Serializer.Body(Content(b)))
  }

  function SentFrames(sent: seq<Sent>): (r: seq<Frame>)
    ensures |r| == |sent|
  {
    seq(|sent|, i requires 0 <= i < |sent| => SentFrame(sent[i]))
  }

  /** A frame that holds one `ticked_client` message from the client. */
  ghost predicate IsAcknowledgement(f: Frame) {
    var (c, r) := Deserialize(EMPTY, f.header, f.text);
    r.Ok? && c.senderId == Serializer.OUR_ID && c.types == ["ticked_client"]
  }

  ghost predicate RoundsRead(s: State, frames: seq<Frame>) {
    && |s.rounds| == s.tick && |frames| == 2 * s.tick
    && forall k :: 0 <= k < s.tick ==>
      ReadsRound(frames[2 * k].header, frames[2 * k].text, Serializer.Flatten(s.rounds[..k]), s.rounds[k])
  }

  ghost predicate RoundsAcknowledged(s: State, frames: seq<Frame>) {
    |frames| == 2 * s.tick && forall k :: 0 <= k < s.tick ==> IsAcknowledgement(frames[2 * k + 1])
  }

  lemma RoundFrames(w: World, es: seq<Event>, frames: seq<Frame>)
    requires !Exec(Initial(w), es).sim.Crashed? && frames == AsRead(SentFrames(Exec(Initial(w), es).sent))
    ensures RoundsRead(Exec(Initial(w), es), frames)
  {
    var s := Exec(Initial(w), es);
    EveryRun(w, es);
    forall k | 0 <= k < s.tick
      ensures ReadsRound(frames[2 * k].header, frames[2 * k].text, Serializer.Flatten(s.rounds[..k]), s.rounds[k])
    {
      OutgoingDecodes(w, es, k);
    }
  }

  lemma AcknowledgementFrames(w: World, es: seq<Event>, frames: seq<Frame>)
    requires !Exec(Initial(w), es).sim.Crashed? && frames == AsRead(SentFrames(Exec(Initial(w), es).sent))
    ensures RoundsAcknowledged(Exec(Initial(w), es), frames)
  {
    var s := Exec(Initial(w), es);
    TickAccounting(w, es);
    forall k | 0 <= k < s.tick ensures IsAcknowledgement(frames[2 * k + 1]) {
      AcknowledgementFrame(s.sent[2 * k + 1], frames[2 * k + 1]);
    }
  }

  lemma AcknowledgementFrame(b: Sent, f: Frame)
    requires b == TickedClient && f.text == Serializer.Body(Content(b))
    requires f.header == Narrow(Serializer.Header(Content(b)))
    ensures IsAcknowledgement(f)
  {
    AcknowledgementDecodes();
  }

  /** Over every run, a peer that reads the client's stream in any chunking gets, round by round, the
      round's outgoing bundle and then its acknowledgement, and nothing else, as long as the header
      can count their bytes. */
  lemma PeerReads(w: World, es: seq<Event>, chunks: seq<Bytes>)
    requires var s := Exec(Initial(w), es);
      && !s.sim.Crashed? && Join(chunks) == Stream(SentFrames(s.sent))
      && forall i :: 0 <= i < |s.sent| ==> Countable(SentFrames(s.sent)[i])
    ensures var s := Exec(Initial(w), es);
      var frames := FeedAll(START, chunks).delivered;
      RoundsRead(s, frames) && RoundsAcknowledged(s, frames)
  {
    AsyncIsSync(chunks);
    ReadStream(SentFrames(Exec(Initial(w), es).sent));
    RoundFrames(w, es, FeedAll(START, chunks).delivered);
    AcknowledgementFrames(w, es, FeedAll(START, chunks).delivered);
  }
}
