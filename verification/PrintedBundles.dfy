/** Which bundles of printed messages survive decoding, for every list of objects the writer can print. */
module PrintedBundles {
  import opened Octets
  import opened JsonText
  import opened JsonDoubles
  import opened JsonPrefixes
  import opened BundleVersion
  import opened Serializer
  import opened Conglomerate
  import opened Deserializer
  import OldFormat

  // ---------- one message ----------

  /** A printed object is an accepted message exactly when its doubles are finite and its type usable. */
  lemma PrintedAcceptedIff(v: Json)
    requires v.Obj? && Doubles(v)
    ensures Accepted(Print(v, false)) <==> Valid(v) && MessageType(Clip(v)).Ok?
  {
    var text := Print(v, false);
    assert text + "" == text;
    if Valid(v) {
      PrintedAccepted(v, false, false);
    } else {
      PrintedIsReadIffFinite(v, false, "");
      assert text[0] == '{';
    }
  }

  /** A printed object that is cut short is refused. */
  lemma CutRefused(v: Json, n: nat)
    requires v.Obj? && Doubles(v) && n < |Print(v, false)|
    ensures !Accepted(Print(v, false)[..n])
  {
    var p := Print(v, false)[..n];
    CutValue(v, false, n);
    if p != [] { assert p[0] == Print(v, false)[0] == '{'; }
  }

  // ---------- a message too long for its entry in the length table ----------

  /** Behind pieces of their own length, a piece is the start of its own message. */
  lemma {:induction false} CutStartsOwn(msgs: seq<Bytes>, ns: seq<nat>, k: nat)
    requires |ns| == |msgs| && k < |ns| && Sum(ns) <= |Join(msgs)|
    requires (forall j :: 0 <= j < k ==> ns[j] == |msgs[j]|) && ns[k] <= |msgs[k]|
    ensures Cut(Join(msgs), ns)[k] == msgs[k][..ns[k]]
    decreases k
  {
    var text := Join(msgs);
    if k == 0 {
      assert text[..ns[0]] == msgs[0][..ns[0]];
    } else {
      assert text[ns[0]..] == Join(msgs[1..]);
      CutStartsOwn(msgs[1..], ns[1..], k - 1);
    }
  }

  lemma {:induction false} FirstLong(msgs: seq<Bytes>, n: nat) returns (k: nat)
    requires n <= |msgs| && exists i :: 0 <= i < n && |msgs[i]| >= 0x100_0000
    ensures k < n && |msgs[k]| >= 0x100_0000 && forall j :: 0 <= j < k ==> |msgs[j]| < 0x100_0000
    decreases n
  {
    if exists i :: 0 <= i < n - 1 && |msgs[i]| >= 0x100_0000 {
      k := FirstLong(msgs, n - 1);
    } else {
      k := n - 1;
    }
  }

  lemma LongPiece(msgs: seq<Bytes>, k: nat)
    requires k < |msgs| && |msgs[k]| >= 0x100_0000 && forall j :: 0 <= j < k ==> |msgs[j]| < 0x100_0000
    ensures |Lengths(msgs)| == |msgs| && Sum(Cut24(Lengths(msgs))) <= |Join(msgs)|
    ensures Cut(Join(msgs), Cut24(Lengths(msgs)))[k] == msgs[k][..Low24(|msgs[k]|)]
  {
    LengthsOfJoin(msgs);
    SumCut24(Lengths(msgs));
    var ns := Cut24(Lengths(msgs));
    forall j | 0 <= j <= k ensures ns[j] == Low24(|msgs[j]|) {
      LengthsAt(msgs, j);
    }
    CutStartsOwn(msgs, ns, k);
  }

  lemma LongRefused(sendId: Bytes, destId: Bytes, msgs: seq<Bytes>, k: nat)
    requires k < |msgs| && |msgs[k]| >= 0x100_0000 && forall j :: 0 <= j < k ==> |msgs[j]| < 0x100_0000
    requires !Accepted(msgs[k][..Low24(|msgs[k]|)])
    ensures var o := Bundle(sendId, destId, msgs); Deserialize(EMPTY, Header(o), Body(o)).1.Raised?
  {
    LongPiece(msgs, k);
    FreshRoundTrip(sendId, destId, msgs);
  }

  // ---------- the law ----------

  lemma AllTextsAccepted(vs: seq<Json>)
    requires forall i :: 0 <= i < |vs| ==> vs[i].Obj? && Doubles(vs[i])
    ensures AllAccepted(OldFormat.Texts(vs)) <==> OldFormat.Proper(vs)
  {
    forall i | 0 <= i < |vs|
      ensures Accepted(OldFormat.Texts(vs)[i]) <==> Valid(vs[i]) && MessageType(Clip(vs[i])).Ok?
    {
      PrintedAcceptedIff(vs[i]);
    }
  }

  /** A bundle of any printed objects decodes exactly when all their doubles are finite, all their
      types are usable, and every text is shorter than the 2^24 bytes its table entry can count.
      It then holds the sender and the objects, cut at NUL. */
  lemma PrintedRoundTrip(sendId: Bytes, destId: Bytes, vs: seq<Json>)
    requires forall i :: 0 <= i < |vs| ==> vs[i].Obj? && Doubles(vs[i])
    ensures var o := Bundle(sendId, destId, OldFormat.Texts(vs));
      var (c, r) := Deserialize(EMPTY, Header(o), Body(o));
      && (r.Ok? <==> OldFormat.Proper(vs) && Short(OldFormat.Texts(vs)))
      && (r.Ok? ==> Layout(c) && c.senderId == sendId && c.trees == ClipItems(vs) && c.types == OldFormat.Kinds(vs))
  {
    if Short(OldFormat.Texts(vs)) {
      AllTextsAccepted(vs);
      FreshRoundTrip(sendId, destId, OldFormat.Texts(vs));
      if OldFormat.Proper(vs) { OldFormat.TextsAccepted(vs); }
    } else {
      var msgs := OldFormat.Texts(vs);
      var k := FirstLong(msgs, |msgs|);
      CutRefused(vs[k], Low24(|msgs[k]|));
      LongRefused(sendId, destId, msgs, k);
    }
  }

  /** One printed object alone in a bundle. */
  lemma OneRoundTrip(sendId: Bytes, destId: Bytes, v: Json)
    requires v.Obj? && Valid(v) && MessageType(Clip(v)).Ok?
    ensures var o := Bundle(sendId, destId, [Print(v, false)]);
      var (c, r) := Deserialize(EMPTY, Header(o), Body(o));
      && (r.Ok? <==> |Print(v, false)| < 0x100_0000)
      && (r.Ok? ==>
        && |c.ranges| == 1 && c.senderId == sendId
        && c.trees == [Clip(v)] && c.types == [MessageType(Clip(v)).value])
      && (|sendId| < 256 && |destId| < 256 ==> Narrow(Header(o)) == Header(o))
  {
    var vs := [v];
    ValidDoubles(v);
    assert OldFormat.Texts(vs) == [Print(v, false)];
    assert [Print(v, false)][0] == Print(v, false);
    PrintedRoundTrip(sendId, destId, vs);
    ClipItemsAt(vs, 0);
    assert ClipItems(vs) == [Clip(v)];
    BundleOfOne(sendId, destId, Print(v, false));
    NarrowKeeps(Bundle(sendId, destId, [Print(v, false)]));
    assert OldFormat.Proper(vs);
    assert OldFormat.Kinds(vs) == [MessageType(Clip(v)).value];
  }

  /** A bundle of one message, built on an object of its own. */
  method SerializeOne(text: Bytes) returns (head: BundleHeader, msg: Bytes)
    ensures head == Header(Bundle(OUR_ID, SERVER_ID, [text])) && msg == Body(Bundle(OUR_ID, SERVER_ID, [text]))
  {
    var res := new OngoingSerialization();
    res.SerializeBegin(OUR_ID, SERVER_ID);
    res.AddGeneric(text);
    BundleOfOne(OUR_ID, SERVER_ID, text);
    head, msg := res.SerializeEnd();
  }

  // ---------- both formats ----------

  lemma NewFormat(sendId: Bytes, destId: Bytes, vs: seq<Json>)
    requires OldFormat.Proper(vs)
    ensures var r := OldFormat.ThereAndBack(true, sendId, destId, vs);
      if Short(OldFormat.Texts(vs)) then r == Ok(Some(OldFormat.Received(sendId, ClipItems(vs), OldFormat.Kinds(vs))))
      else r.Raised?
  {
    forall i | 0 <= i < |vs| ensures vs[i].Obj? && Doubles(vs[i]) {
      ValidDoubles(vs[i]);
    }
    PrintedRoundTrip(sendId, destId, vs);
    var o := Bundle(sendId, destId, OldFormat.Texts(vs));
    var r := Deserialize(EMPTY, Header(o), Body(o)).1;
    assert r.Ok? <==> Short(OldFormat.Texts(vs));
    assert r.Raised? ==> OldFormat.ThereAndBack(true, sendId, destId, vs) == Raised(r.why);
  }

  lemma OldOne(sendId: Bytes, destId: Bytes, vs: seq<Json>)
    requires OldFormat.Proper(vs)
    ensures OldFormat.ThereAndBack(false, sendId, destId, vs)
      == Ok(Some(OldFormat.Received(CString(sendId), ClipItems(vs), OldFormat.Kinds(vs))))
  {
    OldFormat.OldRoundTrip(sendId, destId, vs);
  }

  /** The old format takes every list of proper messages. The new one takes exactly those whose
      texts fit the length table, and then both deliver the same messages and types; they agree on
      the sender exactly when its id holds no NUL. */
  lemma FormatsAgree(sendId: Bytes, destId: Bytes, vs: seq<Json>)
    requires OldFormat.Proper(vs)
    ensures var old', new' :=
        OldFormat.ThereAndBack(false, sendId, destId, vs), OldFormat.ThereAndBack(true, sendId, destId, vs);
      && old' == Ok(Some(OldFormat.Received(CString(sendId), ClipItems(vs), OldFormat.Kinds(vs))))
      && (new'.Ok? <==> Short(OldFormat.Texts(vs)))
      && (new'.Ok? ==> new' == Ok(Some(OldFormat.Received(sendId, ClipItems(vs), OldFormat.Kinds(vs)))))
      && (new' == old' <==> Short(OldFormat.Texts(vs)) && NulFreeText(sendId))
  {
    NewFormat(sendId, destId, vs);
    OldOne(sendId, destId, vs);
    CStringFixed(sendId);
  }

  /** The new format as the peer sees it, who reads the header's one-byte fields. */
  function ThereOverWire(sendId: Bytes, destId: Bytes, vs: seq<Json>): Result<Option<OldFormat.Received>> {
    var o := Bundle(sendId, destId, OldFormat.Texts(vs));
    var (c, r) := Deserialize(EMPTY, Narrow(Header(o)), Body(o));
    if r.Raised? then Raised(r.why) else Ok(Some(OldFormat.Summary(c)))
  }

  lemma ManyDiffer(sendId: Bytes, destId: Bytes, vs: seq<Json>)
    requires |vs| >= 256 && ThereOverWire(sendId, destId, vs).Ok?
    ensures |ThereOverWire(sendId, destId, vs).value.value.trees| == |vs| % 256
  {
    var o := Bundle(sendId, destId, OldFormat.Texts(vs));
    BundleCount(sendId, destId, OldFormat.Texts(vs));
    var h := Narrow(Header(o));
    assert h.messageCount == |vs| % 256;
    DecodeCount(h, Body(o));
    var (c, r) := Deserialize(EMPTY, h, Body(o));
    assert r.Ok? && ThereOverWire(sendId, destId, vs).value == Some(OldFormat.Summary(c));
    assert OldFormat.Summary(c).trees == c.trees;
  }

  lemma DecodeCount(h: BundleHeader, body: Bytes)
    requires h.messageCount >= 0
    ensures var (c, r) := Deserialize(EMPTY, h, body); r.Ok? ==> |c.trees| == h.messageCount
  {
    DecodeLayout(h, body);
  }

  lemma BundleCount(sendId: Bytes, destId: Bytes, msgs: seq<Bytes>)
    ensures var o := Bundle(sendId, destId, msgs);
      |o.msgLengths| == |msgs| && o.sendId == sendId && o.destId == destId
  {
    AddAllState(Begin(FRESH, sendId, destId), msgs);
    LengthsOfJoin(msgs);
  }

  /** Over the wire, between ids that the header can count, the formats agree exactly when the id of
      the sender holds no NUL, the texts fit the length table, and there are fewer than 256 of them. */
  lemma FormatsAgreeOverWire(sendId: Bytes, destId: Bytes, vs: seq<Json>)
    requires OldFormat.Proper(vs) && |sendId| < 256 && |destId| < 256
    ensures ThereOverWire(sendId, destId, vs) == OldFormat.ThereAndBack(false, sendId, destId, vs)
      <==> |vs| < 256 && Short(OldFormat.Texts(vs)) && NulFreeText(sendId)
  {
    OldOne(sendId, destId, vs);
    if |vs| < 256 {
      BundleCount(sendId, destId, OldFormat.Texts(vs));
      NarrowKeeps(Bundle(sendId, destId, OldFormat.Texts(vs)));
      NewFormat(sendId, destId, vs);
      CStringFixed(sendId);
      assert ThereOverWire(sendId, destId, vs) == OldFormat.ThereAndBack(true, sendId, destId, vs);
    } else if ThereOverWire(sendId, destId, vs).Ok? {
      ManyDiffer(sendId, destId, vs);
    }
  }
}
