/** Building a v1 bundle: an object that collects messages, and the varying header in front of them. */
module Serializer {
  import opened Octets
  import opened BundleVersion
  import opened Bits

  const OUR_ID: Bytes := "987654321"
  const SERVER_ID: Bytes := "0"

  datatype Ongoing = Ongoing(sendId: Bytes, destId: Bytes, msgLengths: seq<nat>, messages: Bytes)

  const FRESH := Ongoing([], [], [], [])

  /** Starting a bundle clears the lengths; the bytes collected so far stay. */
  function Begin(o: Ongoing, sendId: Bytes, destId: Bytes): Ongoing {
    Ongoing(sendId, destId, [], o.messages)
  }

  function Add(o: Ongoing, msg: Bytes): Ongoing {
    o.(messages := o.messages + msg, msgLengths := o.msgLengths + [|msg|])
  }

  function AddAll(o: Ongoing, msgs: seq<Bytes>): Ongoing
    decreases |msgs|
  {
    if msgs == [] then o else AddAll(Add(o, msgs[0]), msgs[1..])
  }

  /** The low three bytes of a length, high byte first. */
  function Length3(n: nat): (s: Bytes)
    ensures |s| == 3
  {
    [ByteOf(n / 0x1_0000 % 256), ByteOf(n / 0x100 % 256), ByteOf(n % 256)]
  }

  function LengthTable(ns: seq<nat>): (s: Bytes)
    ensures |s| == 3 * |ns|
  {
    if ns == [] then [] else LengthTable(ns[..|ns| - 1]) + Length3(ns[|ns| - 1])
  }

  lemma {:induction false} LengthTableAppend(a: seq<nat>, b: seq<nat>)
    ensures LengthTable(a + b) == LengthTable(a) + LengthTable(b)
    decreases |b|
  {
    if b == [] {
      assert a + b == a;
    } else {
      var init, n := b[..|b| - 1], b[|b| - 1];
      assert (a + b)[..|a + b| - 1] == a + init && (a + b)[|a + b| - 1] == n;
      LengthTableAppend(a, init);
      Assoc(LengthTable(a), LengthTable(init), Length3(n));
    }
  }

  /** The three bytes are those that the shifts and masks take out of the length. */
  lemma Length3Bits(n: nat)
    ensures Length3(n)[0] as int == And(Shr(n, 16), 0xFF)
    ensures Length3(n)[1] as int == And(Shr(n, 8), 0xFF)
    ensures Length3(n)[2] as int == And(n, 0xFF)
  {
    TakeBytes(n);
  }

  function VaryHeader(o: Ongoing): Bytes {
    o.sendId + o.destId + LengthTable(o.msgLengths)
  }

  function Body(o: Ongoing): Bytes {
    VaryHeader(o) + o.messages
  }

  function Header(o: Ongoing): BundleHeader {
    BundleHeader(|o.sendId|, |o.destId|, |o.msgLengths|, |Body(o)| % 0x1_0000_0000)
  }

  class OngoingSerialization {
    var sendId: Bytes
    var destId: Bytes
    var msgLengths: seq<nat>
    var messages: Bytes

    ghost function View(): Ongoing
      reads this
    {
      Ongoing(sendId, destId, msgLengths, messages)
    }

    constructor ()
      ensures View() == FRESH
    {
      sendId, destId, msgLengths, messages := [], [], [], [];
    }

    method SerializeBegin(sendId: Bytes, destId: Bytes)
      modifies this
      ensures View() == Begin(old(View()), sendId, destId)
    {
      this.sendId := sendId;
      this.destId := destId;
      msgLengths := [];
    }

    method AddGeneric(msg: Bytes)
      modifies this
      ensures View() == Add(old(View()), msg)
    {
      messages := messages + msg;
      msgLengths := msgLengths + [|msg|];
    }

    method SerializeEnd() returns (header: BundleHeader, body: Bytes)
      ensures header == Header(View())
      ensures body == Body(View())
    {
      var varHeadSize := |msgLengths| * 3 + |sendId| + |destId|;
      var vHead := new Byte[varHeadSize];
      var off := CopyInto(vHead, 0, sendId);
      off := CopyInto(vHead, off, destId);
      off := WriteLengths(vHead, off);
      assert off == varHeadSize;
      body := vHead[..] + messages;
      assert vHead[..] == vHead[..off];
      header := BundleHeader(|sendId|, |destId|, |msgLengths|, |body| % 0x1_0000_0000);
    }

    method CopyInto(buffer: array<Byte>, start: nat, source: Bytes) returns (off: nat)
      requires start + |source| <= buffer.Length
      modifies buffer
      ensures off == start + |source|
      ensures buffer[..off] == old(buffer[..start]) + source
    {
      off := start;
      var i := 0;
      while i < |source|
        invariant 0 <= i <= |source|
        invariant off == start + i
        invariant buffer[..off] == old(buffer[..start]) + source[..i]
      {
        buffer[off] := source[i];
        off := off + 1;
        i := i + 1;
      }
    }

    method WriteLengths(buffer: array<Byte>, start: nat) returns (off: nat)
      requires start + 3 * |msgLengths| == buffer.Length
      modifies buffer
      ensures off == buffer.Length
      ensures buffer[..off] == old(buffer[..start]) + LengthTable(msgLengths)
    {
      off := start;
      var i := 0;
      while i < |msgLengths|
        invariant 0 <= i <= |msgLengths|
        invariant off == start + 3 * i
        invariant buffer[..off] == old(buffer[..start]) + LengthTable(msgLengths[..i])
      {
        var n := msgLengths[i];
        ghost var before := buffer[..off];
        buffer[off] := ByteOf(n / 0x1_0000 % 256);
        buffer[off + 1] := ByteOf(n / 0x100 % 256);
        buffer[off + 2] := ByteOf(n % 256);
        assert buffer[..off + 3] == before + Length3(n);
        assert msgLengths[..i + 1][..i] == msgLengths[..i];
        Assoc(old(buffer[..start]), LengthTable(msgLengths[..i]), Length3(n));
        off := off + 3;
        i := i + 1;
      }
      assert msgLengths[..i] == msgLengths;
    }
  }

  // ---------- what a run of additions collects ----------

  lemma {:induction false} AddAllState(o: Ongoing, msgs: seq<Bytes>)
    ensures AddAll(o, msgs)
      == o.(messages := o.messages + Join(msgs), msgLengths := o.msgLengths + Lengths(msgs))
    decreases |msgs|
  {
    if msgs == [] {
      assert o.messages + [] == o.messages && o.msgLengths + [] == o.msgLengths;
    } else {
      AddAllState(Add(o, msgs[0]), msgs[1..]);
      Assoc(o.messages, msgs[0], Join(msgs[1..]));
      Assoc(o.msgLengths, [|msgs[0]|], Lengths(msgs[1..]));
    }
  }

  // ---------- reusing one object for many bundles ----------

  /** The state of one object after the given rounds: each begins, adds its messages and ends. */
  function Rounds(o: Ongoing, rounds: seq<seq<Bytes>>, sendId: Bytes, destId: Bytes): Ongoing
    decreases |rounds|
  {
    if rounds == [] then o
    else Rounds(AddAll(Begin(o, sendId, destId), rounds[0]), rounds[1..], sendId, destId)
  }

  /** Every message of the given rounds, in order. */
  function Flatten(rounds: seq<seq<Bytes>>): seq<Bytes> {
    if rounds == [] then [] else rounds[0] + Flatten(rounds[1..])
  }

  lemma {:induction false} RoundsMessages(o: Ongoing, rounds: seq<seq<Bytes>>, sendId: Bytes, destId: Bytes)
    ensures Rounds(o, rounds, sendId, destId).messages == o.messages + Join(Flatten(rounds))
    decreases |rounds|
  {
    if rounds == [] {
      assert o.messages + [] == o.messages;
    } else {
      var p := AddAll(Begin(o, sendId, destId), rounds[0]);
      AddAllState(Begin(o, sendId, destId), rounds[0]);
      RoundsMessages(p, rounds[1..], sendId, destId);
      JoinAppend(rounds[0], Flatten(rounds[1..]));
      Assoc(o.messages, Join(rounds[0]), Join(Flatten(rounds[1..])));
    }
  }

  /** After any earlier rounds, the next body is a header for that round's lengths only,
      followed by every byte added since the object was made. */
  lemma ReusedBody(earlier: seq<seq<Bytes>>, round: seq<Bytes>, sendId: Bytes, destId: Bytes)
    ensures var o := AddAll(Begin(Rounds(FRESH, earlier, sendId, destId), sendId, destId), round);
      && o == Ongoing(sendId, destId, Lengths(round), Join(Flatten(earlier)) + Join(round))
      && Body(o) == sendId + destId + LengthTable(Lengths(round)) + (Join(Flatten(earlier)) + Join(round))
  {
    var e := Rounds(FRESH, earlier, sendId, destId);
    RoundsMessages(FRESH, earlier, sendId, destId);
    AddAllState(Begin(e, sendId, destId), round);
    assert [] + Join(Flatten(earlier)) == Join(Flatten(earlier));
    assert [] + Lengths(round) == Lengths(round);
  }
}
