/** A received bundle: one text, and the table of message ranges inside it. */
module Conglomerate {
  import opened Octets
  import opened JsonText
  import opened JsonReader

  datatype Range = Range(offset: nat, length: nat)

  /** The three vectors `ranges`, `trees` and `types` run in parallel. */
  datatype Conglom = Conglom(senderId: Bytes, text: Bytes, ranges: seq<Range>, trees: seq<Json>, types: seq<Bytes>)

  const EMPTY := Conglom([], [], [], [], [])

  // ---------- reading members ----------

  /** The last member with the given name wins. */
  function Find(members: seq<Member>, name: Bytes): Option<Json> {
    if members == [] then None
    else
      match Find(members[1..], name)
      case Some(v) => Some(v)
      case None => if members[0].name == name then Some(members[0].value) else None
  }

  function Field(root: Json, name: Bytes): Option<Json> {
    if root.Obj? then Find(root.members, name) else None
  }

  /** Cutting an object at NUL cuts what its fields hold, when the names themselves hold none. */
  lemma {:induction false} FindClip(members: seq<Member>, name: Bytes)
    requires forall i :: 0 <= i < |members| ==> NulFreeText(members[i].name)
    ensures Find(ClipMembers(members), name)
      == match Find(members, name) case None => None case Some(v) => Some(Clip(v))
  {
    if members != [] {
      FindClip(members[1..], name);
      CStringFixed(members[0].name);
      assert ClipMembers(members)[1..] == ClipMembers(members[1..]);
    }
  }

  /** Of several members with one name the last is found, and one that is not there is not. */
  lemma {:induction false} FindsLast(members: seq<Member>, name: Bytes, k: nat)
    requires k < |members| && members[k].name == name
    requires forall i :: k < i < |members| ==> members[i].name != name
    ensures Find(members, name) == Some(members[k].value)
    decreases k
  {
    if k == 0 {
      FindsNone(members[1..], name);
    } else {
      FindsLast(members[1..], name, k - 1);
    }
  }

  lemma {:induction false} FindsNone(members: seq<Member>, name: Bytes)
    requires forall i :: 0 <= i < |members| ==> members[i].name != name
    ensures Find(members, name) == None
  {
    if members != [] { FindsNone(members[1..], name); }
  }

  function AsString(v: Json): Result<Bytes> {
    match v
    case Str(s) => Ok(s)
    case Null => Ok([])
    case Bool(b) => Ok(if b then "true" else "false")
    case _ => Raised(BadField)
  }

  function MessageType(root: Json): Result<Bytes> {
    match Field(root, "msg_type")
    case None => Raised(NoMessageType)
    case Some(v) => AsString(v)
  }

  // ---------- one message ----------

  /** The outcome of looking at one range: the tree and type stored, and whether it raised. */
  datatype Look = Look(tree: Json, kind: Bytes, outcome: Result<()>)

  /** `first` is the byte at the start of the range, which is not in the range when it is empty. */
  function Inspect(first: Byte, slice: Bytes): Look {
    if first as int == 0xBB then Look(Null, [], Raised(BinaryMessage))
    else if first != '{' then Look(Null, [], Raised(UnknownFormat))
    else
      match ReadText(slice)
      case None => Look(Null, [], Raised(BadJson))
      case Some(tree) =>
        match MessageType(tree)
        case Raised(why) => Look(tree, [], Raised(why))
        case Ok(kind) => Look(tree, kind, Ok(()))
  }

  /** A message the decoder takes: JSON text of an object that carries a `msg_type`. */
  predicate Accepted(msg: Bytes) {
    msg != [] && Inspect(msg[0], msg).outcome.Ok?
  }

  function ByteAt(text: Bytes, i: nat): Byte
    requires i <= |text|
  {
    if i < |text| then text[i] else NUL
  }

  function WithText(c: Conglom, msgStr: Bytes): Conglom {
    if msgStr != [] then c.(text := msgStr) else c
  }

  function AddMessage(c: Conglom, offset: int, length: nat, msgStr: Bytes): (Conglom, Result<()>) {
    if c.ranges == [] && msgStr == [] then (c, Raised(MissingText))
    else if msgStr != [] && c.text != [] then (c, Raised(TextAlreadySet))
    else
      var d := WithText(c, msgStr);
      if offset < 0 || offset + length > |d.text| then (d, Raised(RangeTooLong))
      else
        var look := Inspect(ByteAt(d.text, offset), d.text[offset..offset + length]);
        (d.(ranges := d.ranges + [Range(offset, length)], trees := d.trees + [look.tree],
            types := d.types + [look.kind]),
         look.outcome)
  }

  class MessageConglomerate {
    var senderId: Bytes
    var messagesV1: Bytes
    var offsetsV1: seq<Range>
    var messagesJson: seq<Json>
    var messageBases: seq<Bytes>

    ghost function View(): Conglom
      reads this
    {
      Conglom(senderId, messagesV1, offsetsV1, messagesJson, messageBases)
    }

    constructor ()
      ensures View() == EMPTY
    {
      senderId, messagesV1, offsetsV1, messagesJson, messageBases := [], [], [], [], [];
    }

    method SetSenderId(id: Bytes)
      modifies this
      ensures View() == old(View()).(senderId := id)
    {
      senderId := id;
    }

    method AddMessageV1(offset: int, length: nat, msgStr: Bytes) returns (r: Result<()>)
      modifies this
      ensures (View(), r) == AddMessage(old(View()), offset, length, msgStr)
      ensures old(Layout(View())) ==> Layout(View())
    {
      ghost var before := View();
      if Layout(before) {
        AddMessageLayout(before, offset, length, msgStr);
      }
      if offsetsV1 == [] && msgStr == [] {
        return Raised(MissingText);
      }
      if msgStr != [] {
        if messagesV1 != [] {
          return Raised(TextAlreadySet);
        }
        messagesV1 := msgStr;
      }
      if offset < 0 || offset + length > |messagesV1| {
        return Raised(RangeTooLong);
      }
      offsetsV1 := offsetsV1 + [Range(offset, length)];
      var look := Inspect(ByteAt(messagesV1, offset), messagesV1[offset..offset + length]);
      messagesJson := messagesJson + [look.tree];
      messageBases := messageBases + [look.kind];
      r := look.outcome;
    }
  }

  // ---------- the layout every exit keeps ----------

  ghost predicate Layout(c: Conglom) {
    && |c.ranges| == |c.trees| == |c.types|
    && (c.ranges != [] ==> c.text != [])
    && forall k :: 0 <= k < |c.ranges| ==> c.ranges[k].offset + c.ranges[k].length <= |c.text|
  }

  /** Adding a message keeps the layout whether it returns or raises, and never replaces the text. */
  lemma AddMessageLayout(c: Conglom, offset: int, length: nat, msgStr: Bytes)
    requires Layout(c)
    ensures Layout(AddMessage(c, offset, length, msgStr).0)
    ensures c.text != [] ==> AddMessage(c, offset, length, msgStr).0.text == c.text
  {
  }

  /** What adding a message raises before it looks at the message, and that nothing is then stored:
      the first message must bring the text, only one may, and every range must lie inside it. */
  lemma AddMessageRefuses(c: Conglom, offset: int, length: nat, msgStr: Bytes)
    ensures var (d, r) := AddMessage(c, offset, length, msgStr);
      && (c.ranges == [] && msgStr == [] ==> r == Raised(MissingText) && d == c)
      && (c.text != [] && msgStr != [] ==> r == Raised(TextAlreadySet) && d == c)
      && (c.text == [] && msgStr != [] && (offset < 0 || offset + length > |msgStr|) ==>
        r == Raised(RangeTooLong) && d == c.(text := msgStr))
      && (c.ranges != [] && msgStr == [] && (offset < 0 || offset + length > |c.text|) ==>
        r == Raised(RangeTooLong) && d == c)
  {
  }

  function Slice(c: Conglom, k: nat): Bytes
    requires k < |c.ranges| && c.ranges[k].offset + c.ranges[k].length <= |c.text|
  {
    c.text[c.ranges[k].offset..c.ranges[k].offset + c.ranges[k].length]
  }

  // ---------- a table of lengths ----------

  /** Ranges that lie one behind another from `offset` on. */
  function Ranges(offset: nat, lengths: seq<nat>): (r: seq<Range>)
    ensures |r| == |lengths|
    decreases |lengths|
  {
    if lengths == [] then [] else [Range(offset, lengths[0])] + Ranges(offset + lengths[0], lengths[1..])
  }

  /** Add one range per length; only the first call carries the text. */
  function AddRanges(c: Conglom, offset: nat, lengths: seq<nat>, msgStr: Bytes): (Conglom, Result<()>)
    decreases |lengths|
  {
    if lengths == [] then (c, Ok(()))
    else
      var (d, r) := AddMessage(c, offset, lengths[0], msgStr);
      if r.Raised? then (d, r) else AddRanges(d, offset + lengths[0], lengths[1..], [])
  }

  lemma {:induction false} AddRangesLayout(c: Conglom, offset: nat, lengths: seq<nat>, msgStr: Bytes)
    requires Layout(c)
    ensures Layout(AddRanges(c, offset, lengths, msgStr).0)
    decreases |lengths|
  {
    if lengths != [] {
      AddMessageLayout(c, offset, lengths[0], msgStr);
      AddRangesLayout(AddMessage(c, offset, lengths[0], msgStr).0, offset + lengths[0], lengths[1..], []);
    }
  }

  lemma AddMessageRange(c: Conglom, offset: nat, length: nat, msgStr: Bytes)
    requires AddMessage(c, offset, length, msgStr).1.Ok?
    ensures var d := AddMessage(c, offset, length, msgStr).0;
      d.ranges == c.ranges + [Range(offset, length)] && d.senderId == c.senderId
  {
  }

  /** A table that is added completely adds its ranges, one behind another. */
  lemma {:induction false} AddRangesTable(c: Conglom, offset: nat, lengths: seq<nat>, msgStr: Bytes)
    requires AddRanges(c, offset, lengths, msgStr).1.Ok?
    ensures var d := AddRanges(c, offset, lengths, msgStr).0;
      d.ranges == c.ranges + Ranges(offset, lengths) && d.senderId == c.senderId
    decreases |lengths|
  {
    if lengths == [] {
      assert c.ranges + [] == c.ranges;
    } else {
      AddMessageRange(c, offset, lengths[0], msgStr);
      AddRangesTable(AddMessage(c, offset, lengths[0], msgStr).0, offset + lengths[0], lengths[1..], []);
      Assoc(c.ranges, [Range(offset, lengths[0])], Ranges(offset + lengths[0], lengths[1..]));
    }
  }

  /** Where each range of a table starts; hence no two of them overlap. */
  lemma {:induction false} RangesContiguous(offset: nat, lengths: seq<nat>, j: nat)
    requires j < |lengths|
    ensures Ranges(offset, lengths)[j].length == lengths[j]
    ensures Ranges(offset, lengths)[j].offset >= offset
    ensures j == 0 ==> Ranges(offset, lengths)[j].offset == offset
    ensures j > 0 ==> var p := Ranges(offset, lengths)[j - 1];
      Ranges(offset, lengths)[j].offset == p.offset + p.length
    decreases j
  {
    if j > 0 {
      RangesContiguous(offset + lengths[0], lengths[1..], j - 1);
    }
  }

  lemma {:induction false} RangesDisjoint(offset: nat, lengths: seq<nat>, i: nat, j: nat)
    requires i < j < |lengths|
    ensures var r := Ranges(offset, lengths); r[i].offset + r[i].length <= r[j].offset
    decreases j
  {
    RangesContiguous(offset, lengths, j);
    if i < j - 1 {
      RangesDisjoint(offset, lengths, i, j - 1);
    }
  }

  // ---------- what a table decodes to ----------

  predicate AllAccepted(parts: seq<Bytes>) {
    forall i :: 0 <= i < |parts| ==> Accepted(parts[i])
  }

  function TreesOf(parts: seq<Bytes>): (r: seq<Json>)
    requires AllAccepted(parts)
    ensures |r| == |parts|
  {
    seq(|parts|, i requires 0 <= i < |parts| => Inspect(parts[i][0], parts[i]).tree)
  }

  function TypesOf(parts: seq<Bytes>): (r: seq<Bytes>)
    requires AllAccepted(parts)
    ensures |r| == |parts|
  {
    seq(|parts|, i requires 0 <= i < |parts| => Inspect(parts[i][0], parts[i]).kind)
  }

  /** From `c` to `d`: success means that every piece was accepted, and then all of them are stored. */
  ghost predicate Took(c: Conglom, parts: seq<Bytes>, d: Conglom, ok: bool) {
    && (ok <==> AllAccepted(parts))
    && (ok ==> d.trees == c.trees + TreesOf(parts) && d.types == c.types + TypesOf(parts))
  }

  lemma TookStep(c: Conglom, head: Bytes, d: Conglom, headOk: bool, tail: seq<Bytes>, e: Conglom, tailOk: bool)
    requires Took(c, [head], d, headOk)
    requires headOk ==> Took(d, tail, e, tailOk)
    ensures Took(c, [head] + tail, e, headOk && tailOk)
  {
    AcceptedSplit(head, tail);
    assert AllAccepted([head]) <==> Accepted(head) by { assert [head][0] == head; }
    if headOk && tailOk {
      Assoc(c.trees, TreesOf([head]), TreesOf(tail));
      Assoc(c.types, TypesOf([head]), TypesOf(tail));
    }
  }

  lemma AddMessageSlice(c: Conglom, offset: nat, length: nat, msgStr: Bytes)
    requires if c.text == [] then msgStr != [] else msgStr == [] && c.ranges != []
    requires offset + length <= |WithText(c, msgStr).text|
    ensures var (d, r) := AddMessage(c, offset, length, msgStr);
      var slice := WithText(c, msgStr).text[offset..offset + length];
      && d.text == WithText(c, msgStr).text && d.senderId == c.senderId
      && d.ranges == c.ranges + [Range(offset, length)]
      && Took(c, [slice], d, r.Ok?)
  {
    var slice := WithText(c, msgStr).text[offset..offset + length];
    assert [slice][0] == slice;
    if slice == [] {
      assert ParseValue(slice) == NoParse;
    } else {
      assert slice[0] == ByteAt(WithText(c, msgStr).text, offset);
      if Accepted(slice) {
        assert TreesOf([slice]) == [Inspect(slice[0], slice).tree];
        assert TypesOf([slice]) == [Inspect(slice[0], slice).kind];
      }
    }
  }

  /** Decoding a table over a text succeeds exactly when every piece it cuts is an
      accepted message, and then stores those pieces in order. */
  lemma {:induction false} AddRangesCut(c: Conglom, offset: nat, lengths: seq<nat>, msgStr: Bytes)
    requires if c.text == [] then msgStr != [] else msgStr == [] && c.ranges != []
    requires offset + Sum(lengths) <= |WithText(c, msgStr).text|
    ensures var (d, r) := AddRanges(c, offset, lengths, msgStr);
      var parts := Cut(WithText(c, msgStr).text[offset..], lengths);
      && Took(c, parts, d, r.Ok?)
      && (r.Ok? && lengths != [] ==> d.text == WithText(c, msgStr).text)
    decreases |lengths|
  {
    if lengths == [] {
      AcceptedNone(c);
    } else {
      var n := lengths[0];
      var text := WithText(c, msgStr).text;
      var head, tail := text[offset..offset + n], Cut(text[offset + n..], lengths[1..]);
      CutStep(text, offset, lengths);
      AddMessageSlice(c, offset, n, msgStr);
      var (d, r) := AddMessage(c, offset, n, msgStr);
      var (e, q) := AddRanges(d, offset + n, lengths[1..], []);
      if r.Ok? {
        AddRangesCut(d, offset + n, lengths[1..], []);
      }
      TookStep(c, head, d, r.Ok?, tail, e, q.Ok?);
    }
  }

  lemma CutStep(text: Bytes, offset: nat, lengths: seq<nat>)
    requires lengths != [] && offset + Sum(lengths) <= |text|
    ensures Cut(text[offset..], lengths)
      == [text[offset..offset + lengths[0]]] + Cut(text[offset + lengths[0]..], lengths[1..])
  {
    var n := lengths[0];
    assert text[offset..][..n] == text[offset..offset + n];
    assert text[offset..][n..] == text[offset + n..];
  }

  lemma AcceptedNone(c: Conglom)
    ensures AllAccepted([])
    ensures c.trees + TreesOf([]) == c.trees && c.types + TypesOf([]) == c.types
  {
  }

  lemma AcceptedSplit(head: Bytes, tail: seq<Bytes>)
    ensures AllAccepted([head] + tail) <==> Accepted(head) && AllAccepted(tail)
    ensures AllAccepted([head] + tail) ==>
      && TreesOf([head] + tail) == TreesOf([head]) + TreesOf(tail)
      && TypesOf([head] + tail) == TypesOf([head]) + TypesOf(tail)
  {
    var parts := [head] + tail;
    assert parts[0] == head && forall i :: 0 <= i < |tail| ==> parts[i + 1] == tail[i];
    assert forall i :: 1 <= i < |parts| ==> parts[i] == tail[i - 1];
  }
}
