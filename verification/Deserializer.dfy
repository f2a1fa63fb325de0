/** Decoding a v1 bundle body, and what decoding does to what the serializer built. */
module Deserializer {
  import opened Octets
  import opened JsonText
  import opened JsonReader
  import opened BundleVersion
  import opened Bits
  import opened Serializer
  import opened Conglomerate

  datatype Vary = Vary(sendId: Bytes, destId: Bytes, lengths: seq<nat>, next: nat)

  function Whole(n: int): nat {
    if n < 0 then 0 else n
  }

  function ReadLength(s: Bytes, i: nat): nat
    requires i + 3 <= |s|
  {
    s[i] as int * 0x1_0000 + s[i + 1] as int * 0x100 + s[i + 2] as int
  }

  /** The length is the one that the shifts and ors put together from its bytes. */
  lemma ReadLengthBits(s: Bytes, i: nat)
    requires i + 3 <= |s|
    ensures ReadLength(s, i) == Or(Or(Shl(s[i] as int, 16), Shl(s[i + 1] as int, 8)), s[i + 2] as int)
  {
    PutBytes(0, s[i] as int, s[i + 1] as int, s[i + 2] as int);
  }

  function ReadTable(s: Bytes, start: nat, count: nat): (ns: seq<nat>)
    requires start + 3 * count <= |s|
    ensures |ns| == count
  {
    seq(count, k requires 0 <= k < count => ReadLength(s, start + 3 * k))
  }

  /** The varying header; indexing a string at its length yields NUL, and past that is undefined. */
  function ReadVary(h: BundleHeader, body: Bytes): Result<Vary> {
    var p := body + [NUL];
    var a, b, n := Whole(h.sendIdLen), Whole(h.destIdLen), Whole(h.messageCount);
    if a + b + 3 * n > |p| then Raised(OutOfBounds)
    else Ok(Vary(p[..a], p[a..a + b], ReadTable(p, a + b, n), a + b + 3 * n))
  }

  function Deserialize(c: Conglom, h: BundleHeader, body: Bytes): (Conglom, Result<()>) {
    match ReadVary(h, body)
    case Raised(why) => (c, Raised(why))
    case Ok(v) => AddRanges(c.(senderId := v.sendId), v.next, v.lengths, body)
  }

  method CopyId(msgStr: Bytes, start: nat, size: int) returns (id: Bytes, ok: bool)
    ensures ok <==> start + Whole(size) <= |msgStr| + 1 || size <= 0
    ensures ok && size > 0 ==> id == (msgStr + [NUL])[start..start + size]
    ensures ok && size <= 0 ==> id == []
  {
    id := [];
    var sz := 0;
    while sz < size
      invariant 0 <= sz <= Whole(size)
      invariant sz > 0 ==> start + sz <= |msgStr| + 1
      invariant sz > 0 ==> id == (msgStr + [NUL])[start..start + sz]
      invariant sz == 0 ==> id == []
    {
      if start + sz > |msgStr| {
        return id, false;
      }
      id := id + [ByteAt(msgStr, start + sz)];
      sz := sz + 1;
    }
    ok := true;
  }

  method CopyLengths(msgStr: Bytes, start: nat, count: int) returns (lengths: seq<nat>, ok: bool)
    requires start <= |msgStr| + 1
    ensures ok <==> start + 3 * Whole(count) <= |msgStr| + 1
    ensures ok ==> lengths == ReadTable(msgStr + [NUL], start, Whole(count))
  {
    ghost var p := msgStr + [NUL];
    lengths := [];
    var i := start;
    var msgId := 0;
    while msgId < count
      invariant 0 <= msgId <= Whole(count)
      invariant i == start + 3 * msgId <= |p|
      invariant lengths == ReadTable(p, start, msgId)
    {
      if i + 2 > |msgStr| {
        return lengths, false;
      }
      lengths := lengths + [msgStr[i] as int * 0x1_0000 + msgStr[i + 1] as int * 0x100 + ByteAt(msgStr, i + 2) as int];
      i := i + 3;
      msgId := msgId + 1;
    }
    ok := true;
  }

  /** The rest of the varying header, behind the sender's id. */
  method CopyRest(header: BundleHeader, msgStr: Bytes, start: nat) returns (lengths: seq<nat>, next: nat, ok: bool)
    requires start <= |msgStr| + 1
    ensures ok <==> start + Whole(header.destIdLen) + 3 * Whole(header.messageCount) <= |msgStr| + 1
    ensures ok ==> next == start + Whole(header.destIdLen) + 3 * Whole(header.messageCount)
    ensures ok ==>
      lengths == ReadTable(msgStr + [NUL], start + Whole(header.destIdLen), Whole(header.messageCount))
  {
    lengths, next := [], start;
    var destId, destOk := CopyId(msgStr, start, header.destIdLen);
    if !destOk {
      return lengths, next, false;
    }
    next := start + if header.destIdLen < 0 then 0 else header.destIdLen;
    lengths, ok := CopyLengths(msgStr, next, header.messageCount);
    if ok {
      next := next + 3 * |lengths|;
    }
  }

  lemma VaryParts(h: BundleHeader, body: Bytes, sendId: Bytes, lengths: seq<nat>, next: nat)
    requires var p := body + [NUL];
      var a, b, n := Whole(h.sendIdLen), Whole(h.destIdLen), Whole(h.messageCount);
      && next == a + b + 3 * n <= |p| && sendId == p[..a] && lengths == ReadTable(p, a + b, n)
    ensures ReadVary(h, body).Ok?
    ensures var v := ReadVary(h, body).value; v.sendId == sendId && v.lengths == lengths && v.next == next
  {
  }

  /** Decode into `res`. After an undefined read nothing is promised about `res`. */
  method DeserializeV1(header: BundleHeader, msgStr: Bytes, res: MessageConglomerate) returns (r: Result<()>)
    modifies res
    ensures r == Deserialize(old(res.View()), header, msgStr).1
    ensures ReadVary(header, msgStr).Ok? ==> res.View() == Deserialize(old(res.View()), header, msgStr).0
    ensures ReadVary(header, msgStr).Ok? && old(Layout(res.View())) ==> Layout(res.View())
  {
    ghost var before := res.View();
    var sendId, sendOk := CopyId(msgStr, 0, header.sendIdLen);
    if !sendOk {
      return Raised(OutOfBounds);
    }
    res.SetSenderId(sendId);
    var i: nat := if header.sendIdLen < 0 then 0 else header.sendIdLen;
    var lengths, next, restOk := CopyRest(header, msgStr, i);
    if !restOk {
      return Raised(OutOfBounds);
    }
    VaryParts(header, msgStr, sendId, lengths, next);
    if Layout(before) {
      AddRangesLayout(before.(senderId := sendId), next, lengths, msgStr);
    }
    r := AddEach(lengths, next, msgStr, res);
  }

  lemma AddRangesNext(c: Conglom, offset: nat, lengths: seq<nat>, k: nat, text: Bytes)
    requires k < |lengths|
    ensures var (d, r) := AddMessage(c, offset, lengths[k], text);
      AddRanges(c, offset, lengths[k..], text)
        == if r.Raised? then (d, r) else AddRanges(d, offset + lengths[k], lengths[k + 1..], [])
  {
    assert lengths[k..][1..] == lengths[k + 1..];
  }

  /** One entry of the table. */
  method AddNext(lengths: seq<nat>, k: nat, offset: nat, text: Bytes, res: MessageConglomerate) returns (r: Result<()>)
    requires k < |lengths|
    modifies res
    ensures AddRanges(old(res.View()), offset, lengths[k..], text)
      == if r.Raised? then (res.View(), r) else AddRanges(res.View(), offset + lengths[k], lengths[k + 1..], [])
  {
    AddRangesNext(res.View(), offset, lengths, k, text);
    r := res.AddMessageV1(offset, lengths[k], text);
  }

  lemma NothingLeft(c: Conglom, offset: nat, lengths: seq<nat>, text: Bytes)
    ensures AddRanges(c, offset, lengths[|lengths|..], text) == (c, Ok(()))
  {
  }

  method AddEach(lengths: seq<nat>, start: nat, msgStr: Bytes, res: MessageConglomerate) returns (r: Result<()>)
    modifies res
    ensures (res.View(), r) == AddRanges(old(res.View()), start, lengths, msgStr)
  {
    r := Ok(());
    ghost var goal := AddRanges(res.View(), start, lengths, msgStr);
    var i, k, text := start, 0, msgStr;
    while k < |lengths| && r.Ok?
      invariant 0 <= k <= |lengths|
      invariant goal == if r.Raised? then (res.View(), r) else AddRanges(res.View(), i, lengths[k..], text)
    {
      r := AddNext(lengths, k, i, text, res);
      i, k, text := i + lengths[k], k + 1, [];
    }
    if r.Ok? {
      NothingLeft(res.View(), i, lengths, text);
      r := Ok(());
    }
  }

  // ---------- every decode: the layout ----------

  lemma DecodeRanges(h: BundleHeader, body: Bytes)
    ensures Layout(Deserialize(EMPTY, h, body).0)
    ensures Deserialize(EMPTY, h, body).1.Ok? ==>
      && ReadVary(h, body).Ok?
      && Deserialize(EMPTY, h, body).0.ranges == Ranges(ReadVary(h, body).value.next, ReadVary(h, body).value.lengths)
  {
    var vary := ReadVary(h, body);
    if vary.Ok? {
      var v := vary.value;
      AddRangesLayout(EMPTY.(senderId := v.sendId), v.next, v.lengths, body);
      if Deserialize(EMPTY, h, body).1.Ok? {
        AddRangesTable(EMPTY.(senderId := v.sendId), v.next, v.lengths, body);
      }
      assert [] + Ranges(v.next, v.lengths) == Ranges(v.next, v.lengths);
    }
  }

  /** Whatever the header and the bytes, decoding from an empty object leaves parallel vectors
      and ranges inside the text; on success the ranges start right behind the varying header
      and follow each other without gap or overlap. */
  lemma DecodeLayout(h: BundleHeader, body: Bytes)
    ensures var (c, r) := Deserialize(EMPTY, h, body);
      && Layout(c)
      && (r.Ok? ==>
        && ReadVary(h, body).Ok?
        && var start := Whole(h.sendIdLen) + Whole(h.destIdLen) + 3 * Whole(h.messageCount);
        && c.ranges == Ranges(start, ReadVary(h, body).value.lengths)
        && |c.ranges| == Whole(h.messageCount)
        && (forall i, j :: 0 <= i < j < |c.ranges| ==> c.ranges[i].offset + c.ranges[i].length <= c.ranges[j].offset))
  {
    DecodeRanges(h, body);
    if ReadVary(h, body).Ok? {
      NoOverlap(ReadVary(h, body).value.next, ReadVary(h, body).value.lengths);
    }
  }

  lemma NoOverlap(offset: nat, lengths: seq<nat>)
    ensures var r := Ranges(offset, lengths);
      forall i, j :: 0 <= i < j < |r| ==> r[i].offset + r[i].length <= r[j].offset
  {
    forall i, j | 0 <= i < j < |lengths|
      ensures var r := Ranges(offset, lengths); r[i].offset + r[i].length <= r[j].offset
    {
      RangesDisjoint(offset, lengths, i, j);
    }
  }

  // ---------- decoding what was encoded ----------

  function Low24(n: nat): nat {
    n % 0x100_0000
  }

  /** The lengths a receiver sees: the low three bytes of each. */
  function Cut24(ns: seq<nat>): (r: seq<nat>)
    ensures |r| == |ns|
  {
    seq(|ns|, i requires 0 <= i < |ns| => Low24(ns[i]))
  }

  /** The pieces that lengths, of which the low three bytes count, cut from a text. */
  function Pieces(text: Bytes, lengths: seq<nat>): (parts: seq<Bytes>)
    requires Sum(Cut24(lengths)) <= |text|
    ensures |parts| == |lengths|
  {
    Cut(text, Cut24(lengths))
  }

  lemma Length3Read(n: nat, s: Bytes, i: nat)
    requires i + 3 <= |s| && s[i..i + 3] == Length3(n)
    ensures ReadLength(s, i) == Low24(n)
  {
    var t := s[i..i + 3];
    assert t[0] == s[i] && t[1] == s[i + 1] && t[2] == s[i + 2];
    var a, b := n / 0x100, n / 0x1_0000;
    assert b == a / 256;
    assert n == a * 256 + n % 256 && a == b * 256 + a % 256;
    var c := n % 0x100_0000;
    assert n == n / 0x100_0000 * 0x100_0000 + c;
    assert b == n / 0x100_0000 * 256 + c / 0x1_0000;
    assert b % 256 == c / 0x1_0000;
  }

  lemma {:induction false} TableEntry(ns: seq<nat>, k: nat)
    requires k < |ns|
    ensures LengthTable(ns)[3 * k..3 * k + 3] == Length3(ns[k])
    decreases |ns|
  {
    var init := ns[..|ns| - 1];
    if k < |ns| - 1 {
      TableEntry(init, k);
      assert LengthTable(ns)[3 * k..3 * k + 3] == LengthTable(init)[3 * k..3 * k + 3];
    }
  }

  lemma TableEntryRead(ns: seq<nat>, k: nat)
    requires k < |ns|
    ensures ReadLength(LengthTable(ns), 3 * k) == Low24(ns[k])
  {
    TableEntry(ns, k);
    Length3Read(ns[k], LengthTable(ns), 3 * k);
  }

  lemma ReadShift(before: Bytes, table: Bytes, after: Bytes, i: nat)
    requires i + 3 <= |table|
    ensures ReadLength(before + table + after, |before| + i) == ReadLength(table, i)
  {
    var s := before + table + after;
    assert forall j :: 0 <= j < |table| ==> s[|before| + j] == table[j];
    assert s[|before| + i] == table[i] && s[|before| + i + 1] == table[i + 1] && s[|before| + i + 2] == table[i + 2];
  }

  lemma TableRead(before: Bytes, ns: seq<nat>, after: Bytes)
    ensures ReadTable(before + LengthTable(ns) + after, |before|, |ns|) == Cut24(ns)
  {
    forall k | 0 <= k < |ns| ensures ReadLength(LengthTable(ns), 3 * k) == Low24(ns[k]) {
      TableEntryRead(ns, k);
    }
    TableShift(before, LengthTable(ns), after, ns);
  }

  lemma TableShift(before: Bytes, table: Bytes, after: Bytes, ns: seq<nat>)
    requires |table| == 3 * |ns|
    requires forall k :: 0 <= k < |ns| ==> ReadLength(table, 3 * k) == Low24(ns[k])
    ensures ReadTable(before + table + after, |before|, |ns|) == Cut24(ns)
  {
    forall k | 0 <= k < |ns| ensures ReadLength(before + table + after, |before| + 3 * k) == Low24(ns[k]) {
      ReadShift(before, table, after, 3 * k);
    }
  }

  predicate Fits(h: BundleHeader, o: Ongoing) {
    h.sendIdLen == |o.sendId| && h.destIdLen == |o.destId| && h.messageCount == |o.msgLengths|
  }

  lemma VaryRead(o: Ongoing, h: BundleHeader)
    requires Fits(h, o)
    ensures ReadVary(h, Body(o)) == Ok(Vary(o.sendId, o.destId, Cut24(o.msgLengths), |VaryHeader(o)|))
  {
    var p := Body(o) + [NUL];
    var ids := o.sendId + o.destId;
    Assoc(VaryHeader(o), o.messages, [NUL]);
    TableRead(ids, o.msgLengths, o.messages + [NUL]);
    Assoc(ids, LengthTable(o.msgLengths), o.messages + [NUL]);
    IdSlices(o.sendId, o.destId, LengthTable(o.msgLengths) + (o.messages + [NUL]));
  }

  lemma IdSlices(a: Bytes, b: Bytes, rest: Bytes)
    ensures (a + b + rest)[..|a|] == a && (a + b + rest)[|a|..|a| + |b|] == b
  {
  }

  function Slices(c: Conglom): (parts: seq<Bytes>)
    requires Layout(c)
    ensures |parts| == |c.ranges|
  {
    seq(|c.ranges|, k requires 0 <= k < |c.ranges| => Slice(c, k))
  }

  /** `c` is the bundle that `sendId` sent with these messages. */
  ghost predicate Holds(c: Conglom, sendId: Bytes, msgs: seq<Bytes>) {
    && Layout(c)
    && c.senderId == sendId
    && Slices(c) == msgs
    && AllAccepted(msgs)
    && c.trees == TreesOf(msgs)
    && c.types == TypesOf(msgs)
  }

  lemma {:induction false} RangesCut(text: Bytes, offset: nat, lengths: seq<nat>, k: nat)
    requires offset + Sum(lengths) <= |text| && k < |lengths|
    ensures var r := Ranges(offset, lengths)[k];
      r.offset + r.length <= |text| && text[r.offset..r.offset + r.length] == Cut(text[offset..], lengths)[k]
    decreases k
  {
    CutStep(text, offset, lengths);
    if k > 0 {
      RangesCut(text, offset + lengths[0], lengths[1..], k - 1);
    }
  }

  /** Decoding any serialized object, with the lengths its table can carry: it succeeds exactly
      when the pieces those lengths cut from the collected bytes are accepted messages, and then
      holds those pieces. */
  lemma DecodeEncoded(o: Ongoing, h: BundleHeader)
    requires Fits(h, o) && Sum(Cut24(o.msgLengths)) <= |o.messages|
    ensures var (c, r) := Deserialize(EMPTY, h, Body(o));
      var parts := Pieces(o.messages, o.msgLengths);
      && (r.Ok? <==> AllAccepted(parts))
      && (r.Ok? ==> Holds(c, o.sendId, parts))
  {
    VaryRead(o, h);
    DecodeRanges(h, Body(o));
    Behind(VaryHeader(o), o.messages);
    if o.msgLengths == [] {
      DecodeEmpty(o, h);
    } else {
      var start, ns := |VaryHeader(o)|, Cut24(o.msgLengths);
      assert Body(o) != [] by { assert |LengthTable(o.msgLengths)| > 0; }
      AddRangesCut(EMPTY.(senderId := o.sendId), start, ns, Body(o));
      var (c, r) := Deserialize(EMPTY, h, Body(o));
      if r.Ok? {
        AddRangesTable(EMPTY.(senderId := o.sendId), start, ns, Body(o));
        NothingBefore(c, Cut(o.messages, ns));
        SlicesAre(c, start, ns);
      }
    }
  }

  lemma DecodeEmpty(o: Ongoing, h: BundleHeader)
    requires Fits(h, o) && o.msgLengths == []
    requires ReadVary(h, Body(o)) == Ok(Vary(o.sendId, o.destId, [], |VaryHeader(o)|))
    ensures Deserialize(EMPTY, h, Body(o)) == (EMPTY.(senderId := o.sendId), Ok(()))
    ensures Cut24(o.msgLengths) == [] && AllAccepted(Cut(o.messages, []))
    ensures Holds(EMPTY.(senderId := o.sendId), o.sendId, Cut(o.messages, []))
  {
  }

  lemma NothingBefore(c: Conglom, parts: seq<Bytes>)
    requires AllAccepted(parts) && c.trees == [] + TreesOf(parts) && c.types == [] + TypesOf(parts)
    ensures c.trees == TreesOf(parts) && c.types == TypesOf(parts)
  {
  }

  lemma SlicesAre(c: Conglom, start: nat, ns: seq<nat>)
    requires Layout(c) && c.ranges == Ranges(start, ns) && start + Sum(ns) <= |c.text|
    ensures Slices(c) == Cut(c.text[start..], ns)
  {
    forall k | 0 <= k < |ns| ensures Slices(c)[k] == Cut(c.text[start..], ns)[k] {
      RangesCut(c.text, start, ns, k);
    }
  }

  predicate Short(msgs: seq<Bytes>) {
    forall i :: 0 <= i < |msgs| ==> |msgs[i]| < 0x100_0000
  }

  lemma {:induction false} LengthsAt(msgs: seq<Bytes>, i: nat)
    requires i < |msgs|
    ensures |Lengths(msgs)| == |msgs| && Lengths(msgs)[i] == |msgs[i]|
  {
    if i > 0 {
      LengthsAt(msgs[1..], i - 1);
    } else {
      LengthsOfJoin(msgs);
    }
  }

  lemma ShortLengths(msgs: seq<Bytes>)
    requires Short(msgs)
    ensures Cut24(Lengths(msgs)) == Lengths(msgs)
  {
    LengthsOfJoin(msgs);
    forall i | 0 <= i < |msgs| ensures Cut24(Lengths(msgs))[i] == Lengths(msgs)[i] {
      LengthsAt(msgs, i);
    }
  }

  /** The object a bundle is built on when nothing was added to it before. */
  function Bundle(sendId: Bytes, destId: Bytes, msgs: seq<Bytes>): Ongoing {
    Serializer.AddAll(Begin(FRESH, sendId, destId), msgs)
  }

  lemma BundleOfOne(sendId: Bytes, destId: Bytes, msg: Bytes)
    ensures Bundle(sendId, destId, [msg]) == Add(Begin(FRESH, sendId, destId), msg)
  {
    var o := Begin(FRESH, sendId, destId);
    assert [msg][1..] == [];
    assert Serializer.AddAll(o, [msg]) == Serializer.AddAll(Add(o, msg), [msg][1..]);
  }

  /** A bundle built on a fresh object decodes to the pieces that the low three bytes of its lengths
      cut from its messages, exactly when all of them are accepted messages; they are its own
      messages exactly when all of those are short. */
  lemma FreshRoundTrip(sendId: Bytes, destId: Bytes, msgs: seq<Bytes>)
    ensures var o := Bundle(sendId, destId, msgs);
      var (c, r) := Deserialize(EMPTY, Header(o), Body(o));
      && Sum(Cut24(Lengths(msgs))) <= |Join(msgs)|
      && var parts := Pieces(Join(msgs), Lengths(msgs));
      && (r.Ok? <==> AllAccepted(parts))
      && (r.Ok? ==> Holds(c, sendId, parts))
      && (parts == msgs <==> Short(msgs))
  {
    ReusedDecode([], msgs, sendId, destId);
    assert Join(Flatten([])) + Join(msgs) == Join(msgs);
  }

  /** On a reused object, a round decodes to the pieces its lengths cut from the start of
      everything ever added; they are the round's own messages exactly when all of those are
      short and the round's bytes are a prefix of all the bytes. */
  lemma ReusedDecode(earlier: seq<seq<Bytes>>, round: seq<Bytes>, sendId: Bytes, destId: Bytes)
    ensures var o := Serializer.AddAll(Begin(Rounds(FRESH, earlier, sendId, destId), sendId, destId), round);
      var old', new' := Join(Flatten(earlier)), Join(round);
      var (c, r) := Deserialize(EMPTY, Header(o), Body(o));
      && Sum(Cut24(Lengths(round))) <= |old' + new'|
      && var parts := Pieces(old' + new', Lengths(round));
      && (r.Ok? <==> AllAccepted(parts))
      && (r.Ok? ==> Holds(c, sendId, parts))
      && (parts == round <==> Short(round) && new' <= old' + new')
  {
    var o := Serializer.AddAll(Begin(Rounds(FRESH, earlier, sendId, destId), sendId, destId), round);
    ReusedBody(earlier, round, sendId, destId);
    RoundFits(round);
    DecodeEncoded(o, Header(o));
    CutIsOwn(round, Join(Flatten(earlier)) + Join(round));
  }

  lemma {:induction false} SumCut24(ns: seq<nat>)
    ensures Sum(Cut24(ns)) <= Sum(ns)
  {
    if ns != [] {
      SumCut24(ns[1..]);
      assert Cut24(ns)[1..] == Cut24(ns[1..]);
    }
  }

  lemma RoundFits(round: seq<Bytes>)
    ensures |Lengths(round)| == |round| && Sum(Cut24(Lengths(round))) <= |Join(round)|
  {
    LengthsOfJoin(round);
    SumCut24(Lengths(round));
  }

  /** The low three bytes of the lengths cut the parts themselves exactly when these are short and
      the text starts with them. */
  lemma CutIsOwn(parts: seq<Bytes>, text: Bytes)
    requires Sum(Cut24(Lengths(parts))) <= |text|
    ensures Pieces(text, Lengths(parts)) == parts <==> Short(parts) && Join(parts) <= text
  {
    LengthsOfJoin(parts);
    if Short(parts) {
      ShortLengths(parts);
      CutIsPrefix(parts, text);
    } else {
      var i :| 0 <= i < |parts| && |parts[i]| >= 0x100_0000;
      LengthsAt(parts, i);
      CutLength(text, Cut24(Lengths(parts)), i);
    }
  }

  lemma {:induction false} CutLength(text: Bytes, lengths: seq<nat>, i: nat)
    requires Sum(lengths) <= |text| && i < |lengths|
    ensures |Cut(text, lengths)[i]| == lengths[i]
    decreases i
  {
    if i > 0 { CutLength(text[lengths[0]..], lengths[1..], i - 1); }
  }

  lemma CutIsPrefix(parts: seq<Bytes>, text: Bytes)
    requires Sum(Lengths(parts)) <= |text|
    ensures Cut(text, Lengths(parts)) == parts <==> Join(parts) <= text
  {
    var n := |Join(parts)|;
    LengthsOfJoin(parts);
    if Join(parts) <= text {
      CutJoin(parts, text[n..]);
      PrefixSplit(Join(parts), text);
    }
    if Cut(text, Lengths(parts)) == parts {
      JoinCut(text, Lengths(parts));
      assert text[..n] <= text;
    }
  }

  lemma PrefixSplit(a: Bytes, text: Bytes)
    requires a <= text
    ensures a + text[|a|..] == text
  {
  }

  // ---------- printed messages ----------

  /** A printed object is an accepted message exactly when it carries a usable `msg_type`;
      its tree is then the object with its strings cut at NUL. */
  lemma PrintedAccepted(v: Json, yaml: bool, newline: bool)
    requires Valid(v) && v.Obj?
    ensures var msg := Print(v, yaml) + (if newline then "\n" else "");
      && (Accepted(msg) <==> MessageType(Clip(v)).Ok?)
      && (Accepted(msg) ==> TreesOf([msg]) == [Clip(v)] && TypesOf([msg]) == [MessageType(Clip(v)).value])
      && msg != [] && Inspect(msg[0], msg).tree == Clip(v)
  {
    var rest: Bytes := if newline then "\n" else "";
    var msg := Print(v, yaml) + rest;
    ParsePrint(v, yaml, rest);
    assert msg[0] == '{';
    assert ReadText(msg) == Some(Clip(v));
  }

  // ---------- why a message is refused ----------

  /** What decoding a bundle of one message comes to: by its first byte, by its text, by its type. */
  function Verdict(msg: Bytes): Result<()> {
    if msg == [] then Raised(UnknownFormat)
    else if msg[0] as int == 0xBB then Raised(BinaryMessage)
    else if msg[0] != '{' then Raised(UnknownFormat)
    else if ReadText(msg).None? then Raised(BadJson)
    else if Field(ReadText(msg).value, "msg_type").None? then Raised(NoMessageType)
    else if AsString(Field(ReadText(msg).value, "msg_type").value).Raised? then Raised(BadField)
    else Ok(())
  }

  lemma OneRefused(sendId: Bytes, destId: Bytes, msg: Bytes)
    requires |msg| < 0x100_0000
    ensures var o := Bundle(sendId, destId, [msg]);
      Deserialize(EMPTY, Header(o), Body(o)).1 == Verdict(msg)
  {
    var o := Bundle(sendId, destId, [msg]);
    BundleOfOne(sendId, destId, msg);
    assert o.msgLengths == [|msg|] && o.messages == msg;
    VaryRead(o, Header(o));
    assert Cut24([|msg|]) == [|msg|];
    Behind(VaryHeader(o), o.messages);
    OneAdded(EMPTY.(senderId := sendId), |VaryHeader(o)|, msg, Body(o));
  }

  lemma OneAdded(c: Conglom, offset: nat, msg: Bytes, body: Bytes)
    requires c.text == [] && body != [] && offset + |msg| == |body| && body[offset..] == msg
    ensures AddRanges(c, offset, [|msg|], body).1 == Verdict(msg)
  {
    assert [|msg|][1..] == [];
    assert body[offset..offset + |msg|] == msg;
    if msg != [] { assert body[offset] == msg[0]; }
  }

  // ---------- a reused object repeats itself ----------

  /** Two rounds of one message each on one object: when the second message is as long as the
      first, the second bundle decodes to the first message instead of its own. */
  lemma ReuseRepeats(v: Json, w: Json)
    requires Valid(v) && v.Obj? && MessageType(Clip(v)).Ok?
    requires |Print(v, false)| == |Print(w, false)| < 0x100_0000
    ensures var a, b := Print(v, false), Print(w, false);
      var o := Serializer.AddAll(Begin(Rounds(FRESH, [[a]], OUR_ID, SERVER_ID), OUR_ID, SERVER_ID), [b]);
      var (c, r) := Deserialize(EMPTY, Header(o), Body(o));
      r.Ok? && Holds(c, OUR_ID, [a])
  {
    var a, b := Print(v, false), Print(w, false);
    assert Flatten([[a]]) == [a] by { assert Flatten([[a]][1..]) == []; assert [a] + [] == [a]; }
    JoinOne(a);
    JoinOne(b);
    ReusedDecode([[a]], [b], OUR_ID, SERVER_ID);
    ShortLengths([b]);
    CutJoin([a], Join([b]));
    assert a + "" == a;
    PrintedAccepted(v, false, false);
    assert AllAccepted([a]) by { assert [a][0] == a; }
  }

  /** A message that carries nothing but its type. */
  function TypeOnly(kind: Bytes): Json {
    Obj([Member("msg_type", Str(kind))])
  }

  lemma TypeNameFree()
    ensures NulFreeText("msg_type")
  {
  }

  lemma KindFound(root: Json, kind: Bytes)
    requires Field(root, "msg_type") == Some(Str(kind))
    ensures MessageType(root) == Ok(kind)
  {
  }

  lemma OneTextValid(name: Bytes, text: Bytes)
    ensures Valid(Obj([Member(name, Str(text))])) && Clip(Str(text)) == Str(CString(text))
  {
  }

  lemma TypeOnlyKind(kind: Bytes)
    ensures Valid(TypeOnly(kind)) && MessageType(Clip(TypeOnly(kind))) == Ok(CString(kind))
  {
    TypeNameFree();
    OneTextValid("msg_type", kind);
    FieldOfOne("msg_type", Str(kind));
    KindFound(Clip(TypeOnly(kind)), CString(kind));
  }

  lemma FieldOfOne(name: Bytes, v: Json)
    requires NulFreeText(name)
    ensures Field(Clip(Obj([Member(name, v)])), name) == Some(Clip(v))
  {
    var ms := [Member(name, v)];
    FindClip(ms, name);
    assert ms[1..] == [];
    assert Find(ms, name) == Some(v);
  }

  lemma PairText(name: Bytes, text: Bytes)
    ensures |Print(Obj([Member(name, Str(text))]), false)| == |Quote(name)| + |Escape(CString(text))| + 5
  {
    var m := Member(name, Str(text));
    assert PrintMembers([m][1..], false, false) == [];
    assert |PrintMember(m, false)| == |Quote(name)| + 1 + |Quote(text)|;
  }

  /** The situation arises: two different messages of the same length. */
  lemma ReuseHappens()
    ensures |Print(TypeOnly("a"), false)| == |Print(TypeOnly("b"), false)|
    ensures Print(TypeOnly("a"), false) != Print(TypeOnly("b"), false)
    ensures Valid(TypeOnly("a")) && MessageType(Clip(TypeOnly("a"))).Ok?
  {
    PairText("msg_type", "a");
    PairText("msg_type", "b");
    TypeOnlyKind("a");
    TypeOnlyKind("b");
    PlainLetter('a');
    PlainLetter('b');
    PrintInjective(TypeOnly("a"), TypeOnly("b"), false);
  }

  lemma PlainLetter(b: Byte)
    requires 'a' <= b <= 'z'
    ensures CString([b]) == [b] && |Escape([b])| == 1
  {
    assert [b][1..] == [];
    assert CString([b][1..]) == [] && Escape([b][1..]) == [];
  }

  // ---------- over the wire ----------

  /** A bundle as the peer takes it apart, who reads the number of lengths modulo 256: the other
      lengths count as the start of the messages. */
  function Arriving(o: Ongoing): Ongoing {
    var n := |o.msgLengths| % 256;
    Ongoing(o.sendId, o.destId, o.msgLengths[..n], LengthTable(o.msgLengths[n..]) + o.messages)
  }

  lemma ArrivingBody(o: Ongoing)
    requires |o.sendId| < 256 && |o.destId| < 256
    ensures Body(Arriving(o)) == Body(o) && Fits(Narrow(Header(o)), Arriving(o))
  {
    var n := |o.msgLengths| % 256;
    var a, b := o.msgLengths[..n], o.msgLengths[n..];
    assert o.msgLengths == a + b;
    LengthTableAppend(a, b);
    Assoc(o.sendId + o.destId, LengthTable(a), LengthTable(b));
    Assoc(o.sendId + o.destId + LengthTable(a), LengthTable(b), o.messages);
  }

  lemma {:induction false} SumPrefix(ns: seq<nat>, n: nat)
    requires n <= |ns|
    ensures Sum(ns[..n]) <= Sum(ns)
  {
    if n > 0 {
      assert ns[..n][1..] == ns[1..][..n - 1];
      SumPrefix(ns[1..], n - 1);
    }
  }

  /** Decoding what the peer reads: the pieces that the lengths it takes cut from all that follows
      them, exactly when those are accepted messages. */
  lemma WireDecode(o: Ongoing)
    requires |o.sendId| < 256 && |o.destId| < 256 && Sum(Cut24(o.msgLengths)) <= |o.messages|
    ensures var a := Arriving(o);
      var (c, r) := Deserialize(EMPTY, Narrow(Header(o)), Body(o));
      && Sum(Cut24(a.msgLengths)) <= |a.messages|
      && var parts := Pieces(a.messages, a.msgLengths);
      && (r.Ok? <==> AllAccepted(parts))
      && (r.Ok? ==> Holds(c, o.sendId, parts))
  {
    var n := |o.msgLengths| % 256;
    ArrivingBody(o);
    SumPrefix(Cut24(o.msgLengths), n);
    assert Cut24(o.msgLengths)[..n] == Cut24(o.msgLengths[..n]);
    DecodeEncoded(Arriving(o), Narrow(Header(o)));
  }

  /** What a receiver makes of a round on a reused object: as many messages as the round has modulo
      256, cut by the low three bytes of their lengths from all that follows the lengths taken. They
      are the round's own exactly when it has fewer than 256, each shorter than 2^24 bytes, and its
      bytes are a prefix of all the bytes ever added. */
  ghost predicate ReadsAs(h: BundleHeader, body: Bytes, sendId: Bytes, destId: Bytes,
                          earlier: seq<Bytes>, own: seq<Bytes>)
  {
    var a := Arriving(Ongoing(sendId, destId, Lengths(own), Join(earlier) + Join(own)));
    var (c, r) := Deserialize(EMPTY, h, body);
    && Sum(Cut24(a.msgLengths)) <= |a.messages|
    && var parts := Pieces(a.messages, a.msgLengths);
    && |parts| == |own| % 256
    && (r.Ok? <==> AllAccepted(parts))
    && (r.Ok? ==> Holds(c, sendId, parts))
    && (parts == own <==> |own| < 256 && Short(own) && Join(own) <= Join(earlier) + Join(own))
  }

  /** Under the header that the peer reads, every round is read like that. */
  lemma ReusedOnWire(earlier: seq<Bytes>, round: seq<Bytes>, sendId: Bytes, destId: Bytes)
    requires |sendId| < 256 && |destId| < 256
    ensures var o := Ongoing(sendId, destId, Lengths(round), Join(earlier) + Join(round));
      ReadsAs(Narrow(Header(o)), Body(o), sendId, destId, earlier, round)
  {
    var o := Ongoing(sendId, destId, Lengths(round), Join(earlier) + Join(round));
    RoundFits(round);
    WireDecode(o);
    ArrivingParts(o, Arriving(o), round);
  }

  lemma FewParts(o: Ongoing, round: seq<Bytes>)
    requires o.msgLengths == Lengths(round) && |round| < 256 && |o.msgLengths| == |round|
    requires Sum(Cut24(o.msgLengths)) <= |o.messages|
    ensures Arriving(o) == o
    ensures Pieces(o.messages, o.msgLengths) == round <==> Short(round) && Join(round) <= o.messages
  {
    FewArrive(o);
    CutIsOwn(round, o.messages);
  }

  lemma ArrivingParts(o: Ongoing, a: Ongoing, round: seq<Bytes>)
    requires o.msgLengths == Lengths(round) && a == Arriving(o)
    requires Sum(Cut24(o.msgLengths)) <= |o.messages|
    requires Sum(Cut24(a.msgLengths)) <= |a.messages|
    ensures |Pieces(a.messages, a.msgLengths)| == |round| % 256
    ensures Pieces(a.messages, a.msgLengths) == round <==>
      |round| < 256 && Short(round) && Join(round) <= o.messages
  {
    LengthsOfJoin(round);
    PieceCount(o, |round|);
    if |round| < 256 {
      FewParts(o, round);
    }
  }

  lemma PieceCount(o: Ongoing, n: nat)
    requires |o.msgLengths| == n && Sum(Cut24(Arriving(o).msgLengths)) <= |Arriving(o).messages|
    ensures |Pieces(Arriving(o).messages, Arriving(o).msgLengths)| == n % 256
    ensures n >= 256 ==> n % 256 < n
  {
  }

  /** A bundle of fewer than 256 messages is taken apart as it was put together. */
  lemma FewArrive(o: Ongoing)
    requires |o.msgLengths| < 256
    ensures Arriving(o) == o
  {
    var n := |o.msgLengths|;
    assert o.msgLengths[..n] == o.msgLengths && o.msgLengths[n..] == [];
    assert LengthTable([]) + o.messages == o.messages;
  }

  /** The eight-byte header carries the three small fields unharmed exactly when each is below 256. */
  lemma NarrowKeeps(o: Ongoing)
    ensures Narrow(Header(o)) == Header(o) <==> |o.sendId| < 256 && |o.destId| < 256 && |o.msgLengths| < 256
  {
  }
}
