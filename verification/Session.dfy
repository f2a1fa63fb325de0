/**
 Framing on a byte stream: the synchronous read, and the asynchronous reader that
 waits for a header, then for its data, then re-arms itself.

 A read completes exactly when its buffer is full, so the bytes that have
 arrived and are not yet consumed are a field of the reader.
 */
module Session {
  import opened Octets
  import opened BundleVersion
  import opened Serializer
  import opened Conglomerate
  import opened Deserializer

  datatype Frame = Frame(header: BundleHeader, text: Bytes)

  /** `Halted`: an error was reported and the read was not re-armed. `Thrown`: an exception
      left the callback. `Closed`: the end of the stream was seen. */
  datatype Phase = AwaitHeader | AwaitData | Halted | Thrown(why: Failure) | Closed

  datatype Reader = Reader(phase: Phase, pending: Bytes, incoming: BundleHeader, delivered: seq<Frame>)

  const START := Reader(AwaitHeader, [], BundleHeader(0, 0, 0, 0), [])

  ghost predicate Armed(r: Reader) {
    r.phase == AwaitData ==> r.incoming.remLen > 0
  }

  predicate Ready(r: Reader) {
    || (r.phase == AwaitHeader && |r.pending| >= HEADER_LENGTH)
    || (r.phase == AwaitData && |r.pending| >= r.incoming.remLen)
  }

  /** One completed read and its callback. */
  function Fire(r: Reader): Reader
    requires Ready(r)
  {
    if r.phase == AwaitHeader then
      var rest := r.pending[HEADER_LENGTH..];
      match ReadV1(r.pending[..HEADER_LENGTH])
      case Raised(why) => r.(phase := Thrown(why), pending := rest)
      case Ok(h) => r.(phase := if h.remLen == 0 then Halted else AwaitData, pending := rest, incoming := h)
    else
      var n := r.incoming.remLen;
      r.(phase := AwaitHeader, pending := r.pending[n..],
         delivered := r.delivered + [Frame(r.incoming, r.pending[..n])])
  }

  /** Completions run until none is due. */
  function Pump(r: Reader): Reader
    requires Armed(r)
    decreases |r.pending|
  {
    if Ready(r) then Pump(Fire(r)) else r
  }

  function Push(r: Reader, bytes: Bytes): Reader {
    r.(pending := r.pending + bytes)
  }

  function Feed(r: Reader, chunk: Bytes): Reader
    requires Armed(r)
  {
    Pump(Push(r, chunk))
  }

  /** The stream ends: a waiting reader closes the socket and hands on one empty text. */
  function Eof(r: Reader): Reader {
    if r.phase == AwaitHeader || r.phase == AwaitData
    then r.(phase := Closed, delivered := r.delivered + [Frame(r.incoming, [])])
    else r
  }

  lemma {:induction false} PumpArmed(r: Reader)
    requires Armed(r)
    ensures Armed(Pump(r)) && !Ready(Pump(r))
    decreases |r.pending|
  {
    if Ready(r) { PumpArmed(Fire(r)); }
  }

  class Connection {
    var phase: Phase
    var pending: Bytes
    var incomingHeader: BundleHeader
    var incomingMessage: Bytes
    var delivered: seq<Frame>

    ghost function View(): Reader
      reads this
    {
      Reader(phase, pending, incomingHeader, delivered)
    }

    constructor ()
      ensures View() == START
    {
      phase, pending, delivered := AwaitHeader, [], [];
      incomingHeader, incomingMessage := BundleHeader(0, 0, 0, 0), [];
    }

    method HandleReadHeader()
      requires phase == AwaitHeader && |pending| >= HEADER_LENGTH
      modifies this
      ensures View() == Fire(old(View()))
    {
      var inbound := pending[..HEADER_LENGTH];
      pending := pending[HEADER_LENGTH..];
      var h := ReadV1(inbound);
      if h.Raised? {
        phase := Thrown(h.why);
      } else {
        incomingHeader := h.value;
        phase := if incomingHeader.remLen == 0 then Halted else AwaitData;
      }
    }

    method HandleReadData()
      requires phase == AwaitData && |pending| >= incomingHeader.remLen
      modifies this
      ensures View() == Fire(old(View()))
    {
      incomingMessage := pending[..incomingHeader.remLen];
      pending := pending[incomingHeader.remLen..];
      delivered := delivered + [Frame(incomingHeader, incomingMessage)];
      AsyncReceive();
    }

    method AsyncReceive()
      modifies this
      ensures incomingMessage == [] && phase == AwaitHeader
      ensures incomingHeader == old(incomingHeader) && pending == old(pending) && delivered == old(delivered)
    {
      incomingMessage := [];
      phase := AwaitHeader;
    }

    /** The end of the stream: close the socket, hand on what has been read of a text (nothing),
        and fail to re-arm. */
    method ReadEof()
      modifies this
      ensures View() == Eof(old(View()))
    {
      if phase == AwaitHeader || phase == AwaitData {
        incomingMessage := [];
        delivered := delivered + [Frame(incomingHeader, incomingMessage)];
        phase := Closed;
      }
    }

    method Receive(chunk: Bytes)
      requires Armed(View())
      modifies this
      ensures View() == Feed(old(View()), chunk)
      ensures Armed(View())
    {
      pending := pending + chunk;
      ghost var goal := Pump(View());
      while (phase == AwaitHeader && |pending| >= HEADER_LENGTH)
         || (phase == AwaitData && |pending| >= incomingHeader.remLen)
        invariant Armed(View()) && Pump(View()) == goal
        decreases |pending|
      {
        if phase == AwaitHeader {
          HandleReadHeader();
        } else {
          HandleReadData();
        }
      }
    }
  }

  // ---------- chunking does not matter ----------

  lemma FirePush(r: Reader, bytes: Bytes)
    requires Ready(r)
    ensures Ready(Push(r, bytes)) && Fire(Push(r, bytes)) == Push(Fire(r), bytes)
  {
    var n := if r.phase == AwaitHeader then HEADER_LENGTH else r.incoming.remLen;
    assert (r.pending + bytes)[..n] == r.pending[..n];
    assert (r.pending + bytes)[n..] == r.pending[n..] + bytes;
  }

  lemma {:induction false} PumpPush(r: Reader, bytes: Bytes)
    requires Armed(r)
    ensures Armed(Pump(r)) && Pump(Push(Pump(r), bytes)) == Pump(Push(r, bytes))
    decreases |r.pending|
  {
    PumpArmed(r);
    if Ready(r) {
      FirePush(r, bytes);
      PumpPush(Fire(r), bytes);
    }
  }

  function FeedAll(r: Reader, chunks: seq<Bytes>): Reader
    requires Armed(r)
    decreases |chunks|
  {
    if chunks == [] then r
    else
      PumpArmed(Push(r, chunks[0]));
      FeedAll(Feed(r, chunks[0]), chunks[1..])
  }

  /** However a byte string is cut into chunks, the reader ends in the same state. */
  lemma {:induction false} AnyChunking(r: Reader, chunks: seq<Bytes>)
    requires Armed(r) && !Ready(r)
    ensures FeedAll(r, chunks) == Feed(r, Join(chunks))
    decreases |chunks|
  {
    if chunks == [] {
      assert r.pending + [] == r.pending;
    } else {
      var a, b := chunks[0], Join(chunks[1..]);
      PumpArmed(Push(r, a));
      AnyChunking(Feed(r, a), chunks[1..]);
      PumpPush(Push(r, a), b);
      Assoc(r.pending, a, b);
    }
  }

  // ---------- the asynchronous reader is the synchronous one, repeated ----------

  /** One synchronous read from a stream that holds `s` and then ends. */
  datatype SyncRead = Got(frame: Frame, rest: Bytes) | Failed | Threw(why: Failure)

  function Read(s: Bytes): SyncRead {
    if |s| < HEADER_LENGTH then Failed
    else
      match ReadV1(s[..HEADER_LENGTH])
      case Raised(why) => Threw(why)
      case Ok(h) =>
        var rest := s[HEADER_LENGTH..];
        if h.remLen == 0 || |rest| < h.remLen then Failed
        else Got(Frame(h, rest[..h.remLen]), rest[h.remLen..])
  }

  /** The synchronous side of a session: `outbound` is what has been written to the socket,
      `inbound` what the peer has written and nobody has read. */
  class SyncSession {
    var outbound: Bytes
    var inbound: Bytes
    var header: BundleHeader
    var text: Bytes

    constructor (inbound: Bytes)
      ensures this.inbound == inbound && outbound == []
    {
      this.inbound := inbound;
      outbound, text, header := [], [], BundleHeader(0, 0, 0, 0);
    }

    method Write(h: BundleHeader, t: Bytes) returns (ok: bool)
      modifies this`outbound
      ensures ok && outbound == old(outbound) + MakeV1(h) + t
    {
      var outboundHeader := MakeV1(h);
      outbound := outbound + outboundHeader + t;
      ok := |outboundHeader| + |t| != 0;
    }

    /** After a failed read the position in the stream is not promised. */
    method ReadBundle() returns (r: Result<bool>)
      modifies this`inbound, this`header, this`text
      ensures match Read(old(inbound))
        case Got(frame, rest) => r == Ok(true) && header == frame.header && text == frame.text && inbound == rest
        case Failed => r == Ok(false)
        case Threw(why) => r == Raised(why)
    {
      if |inbound| < HEADER_LENGTH {
        return Ok(false);
      }
      var inboundHeader := inbound[..HEADER_LENGTH];
      inbound := inbound[HEADER_LENGTH..];
      header :- ReadV1(inboundHeader);
      if header.remLen == 0 {
        return Ok(false);
      }
      if |inbound| < header.remLen {
        return Ok(false);
      }
      text := inbound[..header.remLen];
      inbound := inbound[header.remLen..];
      r := Ok(|text| != 0);
    }
  }

  /** All frames that synchronous reads return before the first that fails. */
  function ReadAll(s: Bytes): seq<Frame>
    decreases |s|
  {
    match Read(s)
    case Got(frame, rest) => [frame] + ReadAll(rest)
    case _ => []
  }

  lemma {:induction false} PumpReadAll(r: Reader)
    requires r.phase == AwaitHeader
    ensures Pump(r).delivered == r.delivered + ReadAll(r.pending)
    decreases |r.pending|
  {
    match Read(r.pending)
    case Got(frame, rest) =>
      var q := Fire(Fire(r));
      assert q == r.(pending := rest, delivered := r.delivered + [frame], incoming := frame.header);
      PumpReadAll(q);
      Assoc(r.delivered, [frame], ReadAll(rest));
      assert Pump(r) == Pump(Fire(r)) == Pump(q);
    case _ =>
      assert r.delivered + [] == r.delivered;
      if Ready(r) {
        assert !Ready(Fire(r));
        assert Pump(Fire(r)) == Fire(r);
      }
  }

  /** For every byte stream in every chunking, the asynchronous reader hands on exactly
      the frames that repeated synchronous reads return. */
  lemma AsyncIsSync(chunks: seq<Bytes>)
    ensures FeedAll(START, chunks).delivered == ReadAll(Join(chunks))
  {
    AnyChunking(START, chunks);
    var r := Push(START, Join(chunks));
    PumpReadAll(r);
    assert [] + Join(chunks) == Join(chunks);
    assert [] + ReadAll(Join(chunks)) == ReadAll(Join(chunks));
  }

  /** The end of the stream hands on exactly one empty text, however much of a frame had arrived,
      and nothing is handed on after it. */
  lemma EofIsLast(chunks: seq<Bytes>, more: Bytes)
    ensures var r := FeedAll(START, chunks);
      var e := Eof(r);
      && (r.phase.AwaitHeader? || r.phase.AwaitData? ==>
        e.delivered == ReadAll(Join(chunks)) + [Frame(r.incoming, [])] && e.phase == Closed)
      && Armed(e) && Feed(e, more).delivered == e.delivered
  {
    AnyChunking(START, chunks);
    PumpArmed(Push(START, Join(chunks)));
    AsyncIsSync(chunks);
  }

  // ---------- a stream of bundles ----------

  datatype Letter = Letter(sendId: Bytes, destId: Bytes, msgs: seq<Bytes>)

  function Built(l: Letter): Ongoing {
    Bundle(l.sendId, l.destId, l.msgs)
  }

  /** What writing one bundle puts on the stream: its header, then its body. */
  function Wire(l: Letter): Bytes {
    MakeV1(Header(Built(l))) + Body(Built(l))
  }

  function WireAll(ls: seq<Letter>): Bytes {
    if ls == [] then [] else Wire(ls[0]) + WireAll(ls[1..])
  }

  predicate Sendable(l: Letter) {
    && |l.sendId| < 256 && |l.destId| < 256 && |l.msgs| < 256
    && Short(l.msgs) && AllAccepted(l.msgs)
    && 0 < |Body(Built(l))| < 0x8000_0000
  }

  lemma ReadWire(l: Letter, rest: Bytes)
    requires |l.sendId| < 256 && |l.destId| < 256 && |l.msgs| < 256 && |Body(Built(l))| < 0x1_0000_0000
    ensures Read(Wire(l) + rest)
      == if Body(Built(l)) == [] then Failed else Got(FrameOf(l), rest)
  {
    var o := Built(l);
    AddAllState(Begin(FRESH, l.sendId, l.destId), l.msgs);
    LengthsOfJoin(l.msgs);
    NarrowKeeps(o);
    assert Narrow(Header(o)) == Header(o);
    ReadFramed(Header(o), Body(o), rest);
  }

  /** Whatever the header, the peer reads the body whole, with the header as its bytes carry it. */
  lemma ReadFramed(h: BundleHeader, body: Bytes, rest: Bytes)
    requires h.remLen == |body|
    ensures Read(MakeV1(h) + body + rest) == if body == [] then Failed else Got(Frame(Narrow(h), body), rest)
  {
    V1ReadMake(h);
    WireParts(MakeV1(h), body, rest);
  }

  /** What writing bundles one after another puts on the stream. */
  function Stream(fs: seq<Frame>): Bytes {
    if fs == [] then [] else MakeV1(fs[0].header) + fs[0].text + Stream(fs[1..])
  }

  /** The bundles as the peer reads them, with the headers that their eight bytes carry. */
  function AsRead(fs: seq<Frame>): (r: seq<Frame>)
    ensures |r| == |fs|
  {
    seq(|fs|, i requires 0 <= i < |fs| => Frame(Narrow(fs[i].header), fs[i].text))
  }

  /** The header announces the text, and there is some. */
  predicate Countable(f: Frame) {
    f.text != [] && f.header.remLen == |f.text|
  }

  lemma {:induction false} ReadStream(fs: seq<Frame>)
    requires forall i :: 0 <= i < |fs| ==> Countable(fs[i])
    ensures ReadAll(Stream(fs)) == AsRead(fs)
  {
    if fs == [] {
      assert Read([]) == Failed;
    } else {
      assert Countable(fs[0]);
      ReadFramed(fs[0].header, fs[0].text, Stream(fs[1..]));
      ReadStream(fs[1..]);
      assert AsRead(fs) == [Frame(Narrow(fs[0].header), fs[0].text)] + AsRead(fs[1..]);
    }
  }

  lemma WireParts(a: Bytes, b: Bytes, rest: Bytes)
    ensures var s := a + b + rest;
      && s[..|a|] == a && s[|a|..] == b + rest
      && s[|a|..][..|b|] == b && s[|a|..][|b|..] == rest
  {
    Assoc(a, b, rest);
    assert (a + (b + rest))[|a|..] == b + rest;
  }

  lemma {:induction false} ReadAllWire(ls: seq<Letter>)
    requires forall i :: 0 <= i < |ls| ==> Sendable(ls[i])
    ensures |ReadAll(WireAll(ls))| == |ls|
    ensures forall i :: 0 <= i < |ls| ==> ReadAll(WireAll(ls))[i] == FrameOf(ls[i])
  {
    if ls == [] {
      assert Read([]) == Failed;
    } else {
      var tail := ReadAll(WireAll(ls[1..]));
      ReadWire(ls[0], WireAll(ls[1..]));
      ReadAllWire(ls[1..]);
      assert ReadAll(WireAll(ls)) == [FrameOf(ls[0])] + tail;
      assert forall i :: 1 <= i < |ls| ==> ls[i] == ls[1..][i - 1];
    }
  }

  function FrameOf(l: Letter): Frame {
    Frame(Header(Built(l)), Body(Built(l)))
  }

  /** After all the bundles the reader is back at a header boundary with nothing left over. */
  lemma {:induction false} PumpWire(r: Reader, ls: seq<Letter>)
    requires r.phase == AwaitHeader && r.pending == WireAll(ls)
    requires forall i :: 0 <= i < |ls| ==> Sendable(ls[i])
    ensures Pump(r).phase == AwaitHeader && Pump(r).pending == []
    decreases |ls|
  {
    if ls != [] {
      ReadWire(ls[0], WireAll(ls[1..]));
      var q := Fire(Fire(r));
      PumpWire(q, ls[1..]);
      assert Pump(r) == Pump(Fire(r)) == Pump(q);
    }
  }

  /** Bundles built on fresh objects and written one after another reach the decoder with the
      same senders and messages, in order, in any chunking of the stream. */
  lemma StreamRoundTrip(ls: seq<Letter>, chunks: seq<Bytes>)
    requires forall i :: 0 <= i < |ls| ==> Sendable(ls[i])
    requires Join(chunks) == WireAll(ls)
    ensures var r := FeedAll(START, chunks);
      && r.phase == AwaitHeader && r.pending == [] && |r.delivered| == |ls|
      && forall i :: 0 <= i < |ls| ==>
        var (c, done) := Deserialize(EMPTY, r.delivered[i].header, r.delivered[i].text);
        done.Ok? && Holds(c, ls[i].sendId, ls[i].msgs)
  {
    AsyncIsSync(chunks);
    AnyChunking(START, chunks);
    assert [] + WireAll(ls) == WireAll(ls);
    PumpWire(Push(START, WireAll(ls)), ls);
    ReadAllWire(ls);
    forall i | 0 <= i < |ls|
      ensures var (c, done) := Deserialize(EMPTY, Header(Built(ls[i])), Body(Built(ls[i])));
        done.Ok? && Holds(c, ls[i].sendId, ls[i].msgs)
    {
      FreshRoundTrip(ls[i].sendId, ls[i].destId, ls[i].msgs);
    }
  }

  // ---------- any stream of bundles ----------

  function FramesOf(ls: seq<Letter>): (r: seq<Frame>)
    ensures |r| == |ls|
  {
    seq(|ls|, i requires 0 <= i < |ls| => FrameOf(ls[i]))
  }

  lemma {:induction false} WireIsStream(ls: seq<Letter>)
    ensures WireAll(ls) == Stream(FramesOf(ls))
  {
    if ls != [] {
      WireIsStream(ls[1..]);
      assert FramesOf(ls)[1..] == FramesOf(ls[1..]);
    }
  }

  lemma LetterDecodes(l: Letter)
    requires |l.sendId| < 256 && |l.destId| < 256
    ensures ReadsAs(Narrow(Header(Built(l))), Body(Built(l)), l.sendId, l.destId, [], l.msgs)
  {
    AddAllState(Begin(FRESH, l.sendId, l.destId), l.msgs);
    assert [] + Join(l.msgs) == Join(l.msgs) && [] + Lengths(l.msgs) == Lengths(l.msgs);
    ReusedOnWire([], l.msgs, l.sendId, l.destId);
  }

  /** Whatever bundles are written one after another, in any chunking: each arrives, in order, and is
      read as above, as its own messages exactly when it has fewer than 256 and each is short. */
  lemma AnyStream(ls: seq<Letter>, chunks: seq<Bytes>)
    requires forall i :: 0 <= i < |ls| ==> |ls[i].sendId| < 256 && |ls[i].destId| < 256 && Countable(FramesOf(ls)[i])
    requires Join(chunks) == WireAll(ls)
    ensures var r := FeedAll(START, chunks);
      && |r.delivered| == |ls|
      && forall i :: 0 <= i < |ls| ==>
        ReadsAs(r.delivered[i].header, r.delivered[i].text, ls[i].sendId, ls[i].destId, [], ls[i].msgs)
  {
    AsyncIsSync(chunks);
    WireIsStream(ls);
    ReadStream(FramesOf(ls));
    forall i | 0 <= i < |ls|
      ensures ReadsAs(Narrow(FrameOf(ls[i]).header), FrameOf(ls[i]).text, ls[i].sendId, ls[i].destId, [], ls[i].msgs)
    {
      LetterDecodes(ls[i]);
    }
  }
}
