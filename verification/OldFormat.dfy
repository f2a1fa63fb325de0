/** The old bundle format (v0): one JSON document, and its agreement with v1. */
module OldFormat {
  import opened Octets
  import opened JsonText
  import opened JsonReader
  import opened Serializer
  import opened Conglomerate
  import opened Deserializer

  /** What a receiver gets out of a bundle, in either format. */
  datatype Received = Received(sender: Bytes, trees: seq<Json>, types: seq<Bytes>)

  // ---------- encoding ----------

  function AddV0(messages: Bytes, msg: Bytes): Bytes {
    messages + (if messages == [] then "" else ",") + msg
  }

  function AddAllV0(messages: Bytes, vs: seq<Json>): Bytes
    decreases |vs|
  {
    if vs == [] then messages else AddAllV0(AddV0(messages, Print(vs[0], false) + "\n"), vs[1..])
  }

  function Packet(sendId: Bytes, destId: Bytes, data: Json): Json {
    Obj([Member("header", Obj([Member("dest_client", Str(destId)), Member("send_client", Str(sendId))])),
         Member("messages", data)])
  }

  /** The collected text must read as a JSON array; it is printed again inside the packet. */
  function EndV0(sendId: Bytes, destId: Bytes, messages: Bytes): Option<Bytes> {
    match ReadText("[" + messages + "]")
    case None => None
    case Some(data) => if data.Arr? then Some(Print(Packet(sendId, destId, data), false) + "\n") else None
  }

  // ---------- decoding ----------

  /** A member of an object; a missing one reads as null, and so does any member of null. */
  function Get(v: Json, name: Bytes): Result<Json> {
    match v
    case Null => Ok(Null)
    case Obj(members) => Ok(match Find(members, name) case Some(w) => w case None => Null)
    case _ => Raised(BadField)
  }

  function Entries(v: Json): Result<seq<Json>> {
    match v
    case Arr(items) => Ok(items)
    case Obj(members) => if members == [] then Ok([]) else Raised(BadField)
    case _ => Ok([])
  }

  function TypesV0(trees: seq<Json>): Result<seq<Bytes>> {
    if trees == [] then Ok([])
    else
      var kind :- MessageType(trees[0]);
      var kinds :- TypesV0(trees[1..]);
      Ok([kind] + kinds)
  }

  /** `None` when the text is not JSON: the decoder then returns false instead of raising. */
  function DecodeV0(body: Bytes): Result<Option<Received>> {
    match ReadText(body)
    case None => Ok(None)
    case Some(root) =>
      var received :- Unpack(root);
      Ok(Some(received))
  }

  function Unpack(root: Json): Result<Received> {
    var header :- Get(root, "header");
    var client :- Get(header, "send_client");
    var sender :- AsString(client);
    var data :- Get(root, "messages");
    var trees :- Entries(data);
    var types :- TypesV0(trees);
    Ok(Received(sender, trees, types))
  }

  // ---------- the collected text ----------

  function Listing(vs: seq<Json>, first: bool): Bytes {
    if vs == [] then [] else Comma(first) + (Print(vs[0], false) + "\n") + Listing(vs[1..], false)
  }

  lemma {:induction false} AddAllListing(messages: Bytes, vs: seq<Json>)
    ensures AddAllV0(messages, vs) == messages + Listing(vs, messages == [])
    decreases |vs|
  {
    if vs == [] {
      assert messages + [] == messages;
    } else {
      var first := messages == [];
      var head := Print(vs[0], false) + "\n";
      var next := AddV0(messages, head);
      assert next != [];
      AddAllListing(next, vs[1..]);
      Assoc(messages, Comma(first), head);
      Assoc(messages, Comma(first) + head, Listing(vs[1..], false));
    }
  }

  lemma {:induction false} ParseListing(vs: seq<Json>, first: bool, rest: Bytes)
    requires forall i :: 0 <= i < |vs| ==> Valid(vs[i])
    ensures ParseItems(Listing(vs, first) + ("]" + rest), first) == Parsed(ClipItems(vs), rest)
    decreases |vs|
  {
    if vs == [] {
      assert Listing(vs, first) + ("]" + rest) == "]" + rest;
      Behind("]", rest);
    } else {
      var head, tail := Print(vs[0], false), Listing(vs[1..], false) + ("]" + rest);
      Listed(first, head + "\n", Listing(vs[1..], false), "]" + rest);
      Assoc(head, "\n", tail);
      PrintHead(vs[0], false);
      ParsePrint(vs[0], false, "\n" + tail);
      ParseListing(vs[1..], false, rest);
      SpaceBeforeItems(tail);
      assert (head + ("\n" + tail))[0] == head[0];
    }
  }

  lemma SpaceBeforeItems(s: Bytes)
    ensures ParseItems("\n" + s, false) == ParseItems(s, false)
  {
    LeadingSpace(s);
  }

  lemma CollectedText(vs: seq<Json>)
    requires forall i :: 0 <= i < |vs| ==> Valid(vs[i])
    ensures ReadText("[" + AddAllV0([], vs) + "]") == Some(Arr(ClipItems(vs)))
  {
    AddAllListing([], vs);
    assert [] + Listing(vs, true) == Listing(vs, true);
    ParseListing(vs, true, []);
    Bracketed("[", Listing(vs, true), "]", []);
    var s := "[" + Listing(vs, true) + "]";
    assert s + [] == s;
    ValueStep(s);
  }

  // ---------- round trip ----------

  /** Messages the formats are meant for: printable objects with a usable `msg_type`. */
  predicate Proper(vs: seq<Json>) {
    forall i :: 0 <= i < |vs| ==> Valid(vs[i]) && vs[i].Obj? && MessageType(Clip(vs[i])).Ok?
  }

  function Kinds(vs: seq<Json>): (r: seq<Bytes>)
    requires Proper(vs)
    ensures |r| == |vs|
  {
    seq(|vs|, i requires 0 <= i < |vs| => MessageType(Clip(vs[i])).value)
  }

  lemma {:induction false} TypesOfClip(vs: seq<Json>)
    requires Proper(vs)
    ensures TypesV0(ClipItems(vs)) == Ok(Kinds(vs))
  {
    if vs == [] {
    } else {
      var tail := vs[1..];
      assert Proper(tail);
      TypesOfClip(tail);
      assert ClipItems(vs)[0] == Clip(vs[0]) && ClipItems(vs)[1..] == ClipItems(tail);
      assert Kinds(vs) == [MessageType(Clip(vs[0])).value] + Kinds(tail);
    }
  }

  lemma {:induction false} FindPair(a: Member, b: Member)
    requires a.name != b.name
    ensures Find([a, b], a.name) == Some(a.value) && Find([a, b], b.name) == Some(b.value)
  {
    assert [a, b][1..] == [b] && [b][1..] == [];
    assert Find([b], a.name) == None && Find([b], b.name) == Some(b.value);
  }

  lemma KeysNulFree()
    ensures NulFreeText("header") && NulFreeText("messages")
    ensures NulFreeText("dest_client") && NulFreeText("send_client")
  {
  }

  lemma ClippedPair(a: Member, b: Member)
    requires a.name != b.name && NulFreeText(a.name) && NulFreeText(b.name)
    ensures var root := Clip(Obj([a, b]));
      Get(root, a.name) == Ok(Clip(a.value)) && Get(root, b.name) == Ok(Clip(b.value))
  {
    FindPair(a, b);
    FindClip([a, b], a.name);
    FindClip([a, b], b.name);
  }

  /** What is found in an object that holds an object of two strings and a list. */
  lemma ClippedPacket(outer: Member, list: Member, dest: Member, send: Member)
    requires outer.value == Obj([dest, send]) && list.value.Arr?
    requires outer.name != list.name && NulFreeText(outer.name) && NulFreeText(list.name)
    requires dest.name != send.name && NulFreeText(dest.name) && NulFreeText(send.name)
    ensures var root := Clip(Obj([outer, list]));
      && Get(root, list.name) == Ok(Clip(list.value))
      && Get(root, outer.name).Ok?
      && Get(Get(root, outer.name).value, send.name) == Ok(Clip(send.value))
      && Get(Get(root, outer.name).value, dest.name) == Ok(Clip(dest.value))
  {
    ClippedPair(dest, send);
    ClippedPair(outer, list);
  }

  lemma PacketFields(sendId: Bytes, destId: Bytes, trees: seq<Json>)
    requires Clip(Arr(trees)) == Arr(trees)
    ensures var root := Clip(Packet(sendId, destId, Arr(trees)));
      && Get(root, "messages") == Ok(Arr(trees))
      && Get(root, "header").Ok?
      && Get(Get(root, "header").value, "send_client") == Ok(Str(CString(sendId)))
      && Get(Get(root, "header").value, "dest_client") == Ok(Str(CString(destId)))
  {
    KeysNulFree();
    assert "header" != "messages" by { assert |"header"| == 6 && |"messages"| == 8; }
    assert "dest_client" != "send_client" by { assert "dest_client"[0] == 'd' && "send_client"[0] == 's'; }
    var dest, send := Member("dest_client", Str(destId)), Member("send_client", Str(sendId));
    ClippedPacket(Member("header", Obj([dest, send])), Member("messages", Arr(trees)), dest, send);
  }

  lemma UnpackFields(root: Json, sender: Bytes, trees: seq<Json>)
    requires Get(root, "messages") == Ok(Arr(trees)) && Get(root, "header").Ok?
    requires Get(Get(root, "header").value, "send_client") == Ok(Str(sender))
    requires TypesV0(trees).Ok?
    ensures Unpack(root) == Ok(Received(sender, trees, TypesV0(trees).value))
  {
  }

  /** Encoding and decoding in v0: the sender and the trees, all cut at NUL. */
  lemma OldRoundTrip(sendId: Bytes, destId: Bytes, vs: seq<Json>)
    requires Proper(vs)
    ensures var body := EndV0(sendId, destId, AddAllV0([], vs));
      && body.Some?
      && DecodeV0(body.value) == Ok(Some(Received(CString(sendId), ClipItems(vs), Kinds(vs))))
  {
    var trees := ClipItems(vs);
    CollectedText(vs);
    ClipNulFree(Arr(vs));
    ClipFixed(Arr(trees));
    ReadPacket(Packet(sendId, destId, Arr(trees)));
    TypesOfClip(vs);
    PacketFields(sendId, destId, trees);
    UnpackFields(Clip(Packet(sendId, destId, Arr(trees))), CString(sendId), trees);
  }

  /** A text that is no JSON is no failure, and a packet without messages brings none. */
  lemma OldEmpty(body: Bytes, root: Json, sender: Bytes)
    ensures ReadText(body).None? ==> DecodeV0(body) == Ok(None)
    ensures
      && ReadText(body) == Some(root) && Get(root, "messages") == Ok(Null)
      && Get(root, "header").Ok? && Get(Get(root, "header").value, "send_client") == Ok(Str(sender)) ==>
      DecodeV0(body) == Ok(Some(Received(sender, [], [])))
  {
  }

  /** The packet names its sender and its destination, each under its own key. */
  lemma OldAddresses(sendId: Bytes, destId: Bytes, vs: seq<Json>)
    requires Proper(vs)
    ensures var body := EndV0(sendId, destId, AddAllV0([], vs));
      && body.Some? && ReadText(body.value).Some?
      && body.value[|body.value| - 1..] == "\n"
      && var header := Get(ReadText(body.value).value, "header");
      && header.Ok?
      && Get(header.value, "send_client") == Ok(Str(CString(sendId)))
      && Get(header.value, "dest_client") == Ok(Str(CString(destId)))
  {
    var trees := ClipItems(vs);
    CollectedText(vs);
    ClipNulFree(Arr(vs));
    ClipFixed(Arr(trees));
    ReadPacket(Packet(sendId, destId, Arr(trees)));
    PacketFields(sendId, destId, trees);
  }

  lemma ReadPacket(root: Json)
    requires Valid(root)
    ensures ReadText(Print(root, false) + "\n") == Some(Clip(root))
  {
    ParsePrint(root, false, "\n");
  }

  // ---------- agreement ----------

  function Texts(vs: seq<Json>): (r: seq<Bytes>)
    ensures |r| == |vs|
  {
    seq(|vs|, i requires 0 <= i < |vs| => Print(vs[i], false))
  }

  function Summary(c: Conglom): Received {
    Received(c.senderId, c.trees, c.types)
  }

  /** Encode and decode with the bundle flag as a parameter. */
  function ThereAndBack(newBundles: bool, sendId: Bytes, destId: Bytes, vs: seq<Json>): Result<Option<Received>> {
    if newBundles then
      var o := Bundle(sendId, destId, Texts(vs));
      var (c, r) := Deserialize(EMPTY, Header(o), Body(o));
      if r.Raised? then Raised(r.why) else Ok(Some(Summary(c)))
    else
      match EndV0(sendId, destId, AddAllV0([], vs))
      case None => Ok(None)
      case Some(body) => DecodeV0(body)
  }

  lemma TextsAccepted(vs: seq<Json>)
    requires Proper(vs)
    ensures AllAccepted(Texts(vs))
    ensures TreesOf(Texts(vs)) == ClipItems(vs) && TypesOf(Texts(vs)) == Kinds(vs)
  {
    forall i | 0 <= i < |vs|
      ensures Accepted(Texts(vs)[i])
      ensures Inspect(Texts(vs)[i][0], Texts(vs)[i]) == Look(ClipItems(vs)[i], Kinds(vs)[i], Ok(()))
    {
      var msg := Texts(vs)[i];
      assert msg + "" == msg;
      PrintedAccepted(vs[i], false, false);
      ClipItemsAt(vs, i);
    }
  }
}
