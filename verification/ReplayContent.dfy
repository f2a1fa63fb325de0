/** What the handlers receive from one replayed tick, after it went through the codec. */
module ReplayContent {
  import opened Octets
  import opened JsonText
  import opened JsonDoubles
  import opened Serializer
  import opened Conglomerate
  import opened Deserializer
  import OldFormat
  import opened PrintedBundles
  import opened Messages
  import opened Trace
  import opened Ordering

  // ---------- the messages of a tick ----------

  function PlaceTree(e: Entry): Json {
    Obj([Member("id", Str(e.0)), Member("x", Real(e.1.x)), Member("y", Real(e.1.y))])
  }

  function PlaceTrees(es: seq<Entry>): (r: seq<Json>)
    ensures |r| == |es|
  {
    seq(|es|, i requires 0 <= i < |es| => PlaceTree(es[i]))
  }

  function LocationsTree(es: seq<Entry>): Json {
    Obj([Member("locations", Arr(PlaceTrees(es))), Member("msg_type", Str("all_locations"))])
  }

  /** `order` is the order in which the map of places is walked. */
  function Entries(order: seq<Bytes>, places: map<Bytes, DPoint>): (r: seq<Entry>)
    requires forall i :: 0 <= i < |order| ==> order[i] in places
    ensures |r| == |order|
  {
    seq(|order|, i requires 0 <= i < |order| => (order[i], places[order[i]]))
  }

  function Recipients(ids: seq<Bytes>): seq<Member> {
    if ids == [] then [] else [Member("to_ids", Arr(Strings(ids)))]
  }

  /** The sender's own id is not used, and there are no recipients to list when there are none. */
  function SendTree(m: TickMulticast): Json {
    Obj([Member("broadcast", Bool(m.receivers == [])),
         Member("data", Str(m.data)),
         Member("format", Str("base64escape")),
         Member("from_id", Str(OUR_ID)),
         Member("msg_type", Str("opaque_send")),
         Member("tech", Str("dsrc"))]
        + Recipients(m.receivers))
  }

  function SendTrees(ms: seq<TickMulticast>): (r: seq<Json>)
    ensures |r| == |ms|
  {
    seq(|ms|, i requires 0 <= i < |ms| => SendTree(ms[i]))
  }

  function TickTrees(order: seq<Bytes>, tick: TimeTick): seq<Json>
    requires forall i :: 0 <= i < |order| ==> order[i] in tick.updateAgent
  {
    (if order == [] then [] else [LocationsTree(Entries(order, tick.updateAgent))]) + SendTrees(tick.multicast)
  }

  /** The bundle a tick is pushed as; it pretends to come from the server. */
  function TickBundle(order: seq<Bytes>, tick: TimeTick): Ongoing
    requires forall i :: 0 <= i < |order| ==> order[i] in tick.updateAgent
  {
    Bundle(SERVER_ID, OUR_ID, OldFormat.Texts(TickTrees(order, tick)))
  }

  /** It goes from the server's id to the client's own. */
  lemma TickAddressed(order: seq<Bytes>, tick: TimeTick)
    requires forall i :: 0 <= i < |order| ==> order[i] in tick.updateAgent
    ensures TickBundle(order, tick).sendId == "0" && TickBundle(order, tick).destId == "987654321"
  {
    AddAllState(Begin(FRESH, SERVER_ID, OUR_ID), OldFormat.Texts(TickTrees(order, tick)));
  }

  // ---------- parsing the locations back ----------

  lemma ParsePlaceTree(e: Entry)
    ensures ParsePlace(PlaceTree(e)) == Ok(e)
  {
    var ms := PlaceTree(e).members;
    assert |"id"| == 2 && |"x"| == 1 && |"y"| == 1 && "x"[0] == 'x' && "y"[0] == 'y';
    assert DistinctNames(ms);
    FindAt(ms, 0);
    FindAt(ms, 1);
    FindAt(ms, 2);
  }

  lemma {:induction false} ParsePlaceTrees(es: seq<Entry>)
    ensures ParsePlaces(PlaceTrees(es), map[]) == Ok(PlacesOf(es))
  {
    if es != [] {
      var init, e := es[..|es| - 1], es[|es| - 1];
      ParsePlaceTrees(init);
      ParsePlaceTree(e);
      assert PlaceTrees(es) == PlaceTrees(init) + [PlaceTree(e)];
      ParsePlacesAppend(PlaceTrees(init), PlaceTree(e), map[]);
    }
  }

  /** A made list of places parses back to the map its entries stand for. */
  lemma LocationsBack(es: seq<Entry>)
    ensures ParseAllLocations(LocationsTree(es)) == Ok(Locations(PlacesOf(es)))
    ensures MessageType(LocationsTree(es)) == Ok("all_locations")
  {
    var ms := LocationsTree(es).members;
    assert |"locations"| == 9 && |"msg_type"| == 8;
    assert DistinctNames(ms);
    FindAt(ms, 0);
    FindAt(ms, 1);
    ParsePlaceTrees(es);
  }

  lemma {:induction false} PlacesOfWalk(order: seq<Bytes>, places: map<Bytes, DPoint>)
    requires forall i :: 0 <= i < |order| ==> order[i] in places
    ensures forall id :: id in PlacesOf(Entries(order, places)) <==> id in order
    ensures forall id :: id in order ==> id in places && PlacesOf(Entries(order, places))[id] == places[id]
    decreases |order|
  {
    if order != [] {
      var init, last := order[..|order| - 1], order[|order| - 1];
      PlacesOfWalk(init, places);
      assert Entries(order, places)[..|order| - 1] == Entries(init, places);
      assert forall id :: id in order <==> id in init || id == last;
    }
  }

  /** The entries of a walk stand for the whole map. */
  lemma WalkedPlaces(order: seq<Bytes>, places: map<Bytes, DPoint>)
    requires Walks(order, places.Keys, LexLess)
    requires forall i :: 0 <= i < |order| ==> order[i] in places
    ensures PlacesOf(Entries(order, places)) == places
  {
    PlacesOfWalk(order, places);
  }

  // ---------- parsing the sends back ----------

  lemma SendNames(ms: seq<Member>)
    requires 6 <= |ms| <= 7
    requires ms[0].name == "broadcast" && ms[1].name == "data" && ms[2].name == "format"
    requires ms[3].name == "from_id" && ms[4].name == "msg_type" && ms[5].name == "tech"
    requires |ms| == 7 ==> ms[6].name == "to_ids"
    ensures DistinctNames(ms)
  {
    assert |"broadcast"| == 9 && |"data"| == 4 && |"format"| == 6 && |"from_id"| == 7;
    assert |"msg_type"| == 8 && |"tech"| == 4 && |"to_ids"| == 6;
    assert "data"[0] == 'd' && "tech"[0] == 't' && "format"[0] == 'f' && "to_ids"[0] == 't';
  }

  lemma SendFields(m: TickMulticast)
    ensures var root := SendTree(m);
      && Field(root, "broadcast") == Some(Bool(m.receivers == []))
      && Field(root, "data") == Some(Str(m.data))
      && Field(root, "format") == Some(Str("base64escape"))
      && Field(root, "from_id") == Some(Str(OUR_ID))
      && Field(root, "msg_type") == Some(Str("opaque_send"))
      && Field(root, "tech") == Some(Str("dsrc"))
      && Field(root, "to_ids") == (if m.receivers == [] then None else Some(Arr(Strings(m.receivers))))
  {
    var ms := SendTree(m).members;
    SendNames(ms);
    FindAt(ms, 0);
    FindAt(ms, 1);
    FindAt(ms, 2);
    FindAt(ms, 3);
    FindAt(ms, 4);
    FindAt(ms, 5);
    if m.receivers == [] {
      NoRecipients(ms);
    } else {
      FindAt(ms, 6);
    }
  }

  lemma NoRecipients(ms: seq<Member>)
    requires |ms| == 6
    requires ms[0].name == "broadcast" && ms[1].name == "data" && ms[2].name == "format"
    requires ms[3].name == "from_id" && ms[4].name == "msg_type" && ms[5].name == "tech"
    ensures Find(ms, "to_ids") == None
  {
    SendNames(ms + [Member("to_ids", Null)]);
    assert forall i :: 0 <= i < 6 ==> (ms + [Member("to_ids", Null)])[i] == ms[i];
    FindsNone(ms, "to_ids");
  }

  /** A made send parses back exactly when it has recipients: same recipients and data, and the
      client's own id as its sender. */
  lemma SendBack(m: TickMulticast)
    ensures ParseOpaqueSend(SendTree(m)).Ok? <==> m.receivers != []
    ensures m.receivers != [] ==>
      ParseOpaqueSend(SendTree(m)) == Ok(OpaqueSend(OUR_ID, m.receivers, false, m.data, "base64escape", "dsrc"))
    ensures MessageType(SendTree(m)) == Ok("opaque_send")
  {
    SendFields(m);
    StringsBack(m.receivers);
  }

  // ---------- what the writer cuts ----------

  function ClipEntry(e: Entry): Entry {
    (CString(e.0), e.1)
  }

  function ClipEntries(es: seq<Entry>): (r: seq<Entry>)
    ensures |r| == |es|
  {
    seq(|es|, i requires 0 <= i < |es| => ClipEntry(es[i]))
  }

  function ClipCast(m: TickMulticast): TickMulticast {
    m.(receivers := ClipTexts(m.receivers), data := CString(m.data))
  }

  lemma ClipThree(a: Member, b: Member, c: Member)
    requires NulFreeText(a.name) && NulFreeText(b.name) && NulFreeText(c.name)
    ensures Clip(Obj([a, b, c])) == Obj([ClipValue(a), ClipValue(b), ClipValue(c)])
  {
    ClipObject([a, b, c]);
  }

  lemma ClipSix(a: Member, b: Member, c: Member, d: Member, e: Member, f: Member, rest: seq<Member>)
    requires NulFreeText(a.name) && NulFreeText(b.name) && NulFreeText(c.name)
    requires NulFreeText(d.name) && NulFreeText(e.name) && NulFreeText(f.name)
    requires forall i :: 0 <= i < |rest| ==> NulFreeText(rest[i].name)
    ensures Clip(Obj([a, b, c, d, e, f] + rest))
      == Obj([ClipValue(a), ClipValue(b), ClipValue(c), ClipValue(d), ClipValue(e), ClipValue(f)] + ClipValues(rest))
  {
    ClipObject([a, b, c, d, e, f] + rest);
  }

  lemma ClipPlace(e: Entry)
    ensures Clip(PlaceTree(e)) == PlaceTree(ClipEntry(e))
  {
    ClipThree(Member("id", Str(e.0)), Member("x", Real(e.1.x)), Member("y", Real(e.1.y)));
  }

  lemma ClipPlaces(es: seq<Entry>)
    ensures Clip(Arr(PlaceTrees(es))) == Arr(PlaceTrees(ClipEntries(es)))
  {
    var items := PlaceTrees(es);
    forall i | 0 <= i < |es| ensures ClipItems(items)[i] == PlaceTrees(ClipEntries(es))[i] {
      ClipItemsAt(items, i);
      ClipPlace(es[i]);
    }
    assert ClipItems(items) == PlaceTrees(ClipEntries(es));
  }

  lemma ClipLocationsNamed(list: Bytes, kind: Bytes, value: Bytes, es: seq<Entry>)
    requires NulFreeText(list) && NulFreeText(kind) && NulFreeText(value)
    ensures Clip(Obj([Member(list, Arr(PlaceTrees(es))), Member(kind, Str(value))]))
      == Obj([Member(list, Arr(PlaceTrees(ClipEntries(es)))), Member(kind, Str(value))])
  {
    KeptText(value);
    ClipPlaces(es);
    ClipTwo(Member(list, Arr(PlaceTrees(es))), Member(kind, Str(value)));
  }

  lemma ClipLocations(es: seq<Entry>)
    ensures Clip(LocationsTree(es)) == LocationsTree(ClipEntries(es))
  {
    LocationLiterals();
    ClipLocationsNamed("locations", "msg_type", "all_locations", es);
  }

  lemma LocationLiterals()
    ensures NulFreeText("locations") && NulFreeText("msg_type") && NulFreeText("all_locations")
  {
  }

  lemma SendLiterals()
    ensures NulFreeText("broadcast") && NulFreeText("data") && NulFreeText("format") && NulFreeText("from_id")
    ensures NulFreeText("msg_type") && NulFreeText("tech") && NulFreeText("to_ids") && NulFreeText("dsrc")
    ensures NulFreeText("base64escape") && NulFreeText("opaque_send") && NulFreeText(OUR_ID)
  {
  }

  lemma ClipRecipients(ids: seq<Bytes>)
    ensures ClipValues(Recipients(ids)) == Recipients(ClipTexts(ids))
  {
    ClipStrings(ids);
  }

  /** The members of a send, for any names and fixed values. */
  function SendMembers(names: seq<Bytes>, fixed: seq<Bytes>, m: TickMulticast): seq<Member>
    requires |names| == 6 && |fixed| == 4
  {
    [Member(names[0], Bool(m.receivers == [])), Member(names[1], Str(m.data)), Member(names[2], Str(fixed[0])),
     Member(names[3], Str(fixed[1])), Member(names[4], Str(fixed[2])), Member(names[5], Str(fixed[3]))]
    + Recipients(m.receivers)
  }

  lemma ClipSendNamed(names: seq<Bytes>, fixed: seq<Bytes>, m: TickMulticast)
    requires |names| == 6 && |fixed| == 4
    requires NulFreeText(names[0]) && NulFreeText(names[1]) && NulFreeText(names[2])
    requires NulFreeText(names[3]) && NulFreeText(names[4]) && NulFreeText(names[5]) && NulFreeText("to_ids")
    requires NulFreeText(fixed[0]) && NulFreeText(fixed[1]) && NulFreeText(fixed[2]) && NulFreeText(fixed[3])
    ensures Clip(Obj(SendMembers(names, fixed, m))) == Obj(SendMembers(names, fixed, ClipCast(m)))
  {
    KeptText(fixed[0]);
    KeptText(fixed[1]);
    KeptText(fixed[2]);
    KeptText(fixed[3]);
    ClipRecipients(m.receivers);
    ClipSix(Member(names[0], Bool(m.receivers == [])), Member(names[1], Str(m.data)),
            Member(names[2], Str(fixed[0])), Member(names[3], Str(fixed[1])),
            Member(names[4], Str(fixed[2])), Member(names[5], Str(fixed[3])), Recipients(m.receivers));
  }

  lemma ClipSend(m: TickMulticast)
    ensures Clip(SendTree(m)) == SendTree(ClipCast(m))
  {
    SendLiterals();
    var names: seq<Bytes> := ["broadcast", "data", "format", "from_id", "msg_type", "tech"];
    var fixed: seq<Bytes> := ["base64escape", OUR_ID, "opaque_send", "dsrc"];
    ClipSendNamed(names, fixed, m);
  }

  // ---------- what the handlers read ----------

  predicate FinitePoint(p: DPoint) {
    IsRealToken(p.x) && IsRealToken(p.y)
  }

  predicate PrintablePoint(p: DPoint) {
    IsDoubleText(p.x) && IsDoubleText(p.y)
  }

  function SendCommand(m: TickMulticast): Command {
    Send(OpaqueSend(OUR_ID, m.receivers, false, m.data, "base64escape", "dsrc"))
  }

  /** What the handler parses from a made send: the receivers and data as the writer cuts them. */
  function SendOutcome(m: TickMulticast): Result<Command> {
    if m.receivers == [] then Raised(BadField) else Ok(SendCommand(ClipCast(m)))
  }

  function Moves(order: seq<Bytes>, places: map<Bytes, DPoint>): Command
    requires forall i :: 0 <= i < |order| ==> order[i] in places
  {
    Locations(PlacesOf(ClipEntries(Entries(order, places))))
  }

  /** What the handlers parse from a tick's messages, one after another. */
  function Outcomes(order: seq<Bytes>, tick: TimeTick): seq<Result<Command>>
    requires forall i :: 0 <= i < |order| ==> order[i] in tick.updateAgent
  {
    (if order == [] then [] else [Ok(Moves(order, tick.updateAgent))])
    + seq(|tick.multicast|, i requires 0 <= i < |tick.multicast| => SendOutcome(tick.multicast[i]))
  }

  /** A printable object whose text, once read, parses to the given outcome. */
  ghost predicate Reads(v: Json, r: Result<Command>) {
    && v.Obj? && Doubles(v)
    && MessageType(Clip(v)).Ok?
    && ParseCommand(MessageType(Clip(v)).value, Clip(v)) == r
  }

  lemma PlacesShape(es: seq<Entry>)
    requires forall i :: 0 <= i < |es| ==> PrintablePoint(es[i].1)
    ensures Doubles(Arr(PlaceTrees(es)))
    ensures Valid(Arr(PlaceTrees(es))) <==> forall i :: 0 <= i < |es| ==> FinitePoint(es[i].1)
  {
    var items := PlaceTrees(es);
    forall i | 0 <= i < |es|
      ensures Doubles(items[i]) && (Valid(items[i]) <==> FinitePoint(es[i].1))
    {
      PlaceShape(Member("id", Str(es[i].0)), Member("x", Real(es[i].1.x)), Member("y", Real(es[i].1.y)));
    }
  }

  lemma PlaceShape(a: Member, b: Member, c: Member)
    requires a.value.Str? && b.value.Real? && c.value.Real?
    ensures Doubles(Obj([a, b, c])) <==> IsDoubleText(b.value.lexeme) && IsDoubleText(c.value.lexeme)
    ensures Valid(Obj([a, b, c])) <==> IsRealToken(b.value.lexeme) && IsRealToken(c.value.lexeme)
  {
    var ms := [a, b, c];
    assert ms[0] == a && ms[1] == b && ms[2] == c;
  }

  lemma PairShape(a: Member, b: Member)
    requires b.value.Str?
    ensures Doubles(Obj([a, b])) <==> Doubles(a.value)
    ensures Valid(Obj([a, b])) <==> Valid(a.value)
  {
    var ms := [a, b];
    assert ms[0] == a && ms[1] == b;
  }

  lemma LocationsRead(es: seq<Entry>)
    requires forall i :: 0 <= i < |es| ==> PrintablePoint(es[i].1)
    ensures Reads(LocationsTree(es), Ok(Locations(PlacesOf(ClipEntries(es)))))
    ensures Valid(LocationsTree(es)) <==> forall i :: 0 <= i < |es| ==> FinitePoint(es[i].1)
  {
    ClipLocations(es);
    LocationsParsed(ClipEntries(es));
    LocationsShape(es);
  }

  lemma LocationsParsed(es: seq<Entry>)
    ensures MessageType(LocationsTree(es)) == Ok("all_locations")
    ensures ParseCommand("all_locations", LocationsTree(es)) == Ok(Locations(PlacesOf(es)))
  {
    LocationsBack(es);
  }

  lemma LocationsShape(es: seq<Entry>)
    requires forall i :: 0 <= i < |es| ==> PrintablePoint(es[i].1)
    ensures Doubles(LocationsTree(es))
    ensures Valid(LocationsTree(es)) <==> forall i :: 0 <= i < |es| ==> FinitePoint(es[i].1)
  {
    PlacesShape(es);
    PairShape(Member("locations", Arr(PlaceTrees(es))), Member("msg_type", Str("all_locations")));
  }

  lemma SendShape(m: TickMulticast)
    ensures Doubles(SendTree(m)) && Valid(SendTree(m))
  {
    var ms := SendTree(m).members;
    forall i | 0 <= i < |ms| ensures Doubles(ms[i].value) && Valid(ms[i].value) {
    }
  }

  lemma SendRead(m: TickMulticast)
    ensures Reads(SendTree(m), SendOutcome(m)) && Valid(SendTree(m))
  {
    ClipSend(m);
    SendBack(ClipCast(m));
    SendParsed(ClipCast(m));
    SendShape(m);
  }

  /** A multicast without recipients is never handled: its message raises in the parser. */
  lemma SendParsed(m: TickMulticast)
    ensures ParseCommand("opaque_send", SendTree(m))
      == if m.receivers == [] then Raised(BadField) else Ok(SendCommand(m))
  {
    SendFields(m);
    StringsBack(m.receivers);
    assert |"opaque_send"| == 11 && |"all_locations"| == 13 && |"new_agents"| == 10 && |"ticked_simmob"| == 13;
  }

  /** The commands the handlers of a bundle parse. */
  function Commands(types: seq<Bytes>, trees: seq<Json>): (r: seq<Result<Command>>)
    requires |types| == |trees|
    ensures |r| == |types|
  {
    seq(|types|, i requires 0 <= i < |types| => ParseCommand(types[i], trees[i]))
  }

  /** Decoding the object yields a bundle from the server whose messages parse to these outcomes. */
  ghost predicate Arrives(o: Ongoing, rs: seq<Result<Command>>) {
    var (c, r) := Deserialize(EMPTY, Header(o), Body(o));
    r.Ok? && c.senderId == SERVER_ID && |c.types| == |c.trees| && Commands(c.types, c.trees) == rs
  }

  lemma ReadTexts(vs: seq<Json>, rs: seq<Result<Command>>)
    requires |vs| == |rs| && forall i :: 0 <= i < |vs| ==> Reads(vs[i], rs[i])
    ensures var o := Bundle(SERVER_ID, OUR_ID, OldFormat.Texts(vs));
      var r := Deserialize(EMPTY, Header(o), Body(o)).1;
      && (r.Ok? <==> Short(OldFormat.Texts(vs)) && forall i :: 0 <= i < |vs| ==> Valid(vs[i]))
      && (r.Ok? ==> Arrives(o, rs))
  {
    forall i | 0 <= i < |vs| ensures vs[i].Obj? && Doubles(vs[i]) && MessageType(Clip(vs[i])).Ok? {
      assert Reads(vs[i], rs[i]);
    }
    PrintedRoundTrip(SERVER_ID, OUR_ID, vs);
    if OldFormat.Proper(vs) {
      forall i | 0 <= i < |vs| ensures ParseCommand(OldFormat.Kinds(vs)[i], ClipItems(vs)[i]) == rs[i] {
        assert Reads(vs[i], rs[i]);
        ClipItemsAt(vs, i);
      }
    }
  }

  // ---------- the whole tick ----------

  /** `order` walks the tick's map of places, and its coordinates are texts the writer prints for doubles. */
  ghost predicate Tickable(order: seq<Bytes>, tick: TimeTick) {
    && Walks(order, tick.updateAgent.Keys, LexLess)
    && (forall i :: 0 <= i < |order| ==> order[i] in tick.updateAgent)
    && (forall id :: id in tick.updateAgent ==> PrintablePoint(tick.updateAgent[id]))
  }

  predicate Finite(tick: TimeTick) {
    forall id :: id in tick.updateAgent ==> FinitePoint(tick.updateAgent[id])
  }

  lemma WalkRead(order: seq<Bytes>, tick: TimeTick)
    requires Tickable(order, tick)
    ensures Reads(LocationsTree(Entries(order, tick.updateAgent)), Ok(Moves(order, tick.updateAgent)))
    ensures Valid(LocationsTree(Entries(order, tick.updateAgent))) <==> Finite(tick)
  {
    var es := Entries(order, tick.updateAgent);
    assert forall j :: 0 <= j < |es| ==> es[j].0 == order[j] && es[j].0 in order;
    LocationsRead(es);
    assert Finite(tick) <==> forall j :: 0 <= j < |es| ==> FinitePoint(es[j].1);
  }

  lemma TickReads(order: seq<Bytes>, tick: TimeTick, i: nat)
    requires Tickable(order, tick) && i < |TickTrees(order, tick)|
    ensures |TickTrees(order, tick)| == |Outcomes(order, tick)|
    ensures Reads(TickTrees(order, tick)[i], Outcomes(order, tick)[i])
    ensures Valid(TickTrees(order, tick)[i]) <==> (order == [] || i > 0 || Finite(tick))
  {
    var k := if order == [] then 0 else 1;
    if i < k {
      WalkRead(order, tick);
    } else {
      SendAt(order, tick, i - k);
      SendRead(tick.multicast[i - k]);
    }
  }

  lemma SendAt(order: seq<Bytes>, tick: TimeTick, j: nat)
    requires forall i :: 0 <= i < |order| ==> order[i] in tick.updateAgent
    requires j < |tick.multicast|
    ensures var k := if order == [] then 0 else 1;
      && |TickTrees(order, tick)| == |Outcomes(order, tick)| == k + |tick.multicast|
      && TickTrees(order, tick)[k + j] == SendTree(tick.multicast[j])
      && Outcomes(order, tick)[k + j] == SendOutcome(tick.multicast[j])
  {
  }

  lemma EmptyWalk(order: seq<Bytes>, places: map<Bytes, DPoint>)
    requires Walks(order, places.Keys, LexLess)
    ensures order == [] <==> places == map[]
  {
    assert order == [] || order[0] in order;
    if places != map[] {
      assert places.Keys != {};
      var k :| k in places.Keys;
      assert k in order;
    }
  }

  /** All coordinates are finite, and every message is short enough for its entry in the length table. */
  predicate Pushable(order: seq<Bytes>, tick: TimeTick)
    requires forall i :: 0 <= i < |order| ==> order[i] in tick.updateAgent
  {
    Finite(tick) && Short(OldFormat.Texts(TickTrees(order, tick)))
  }

  /** Pushing a tick raises exactly when a coordinate is not finite or a message is too long.
      Otherwise the handlers read one message with all its locations, if it has any, then one send
      per multicast, in order; each raises in its parser or parses to the trace's own command,
      cut at NUL. */
  lemma TickArrives(order: seq<Bytes>, tick: TimeTick)
    requires Tickable(order, tick)
    ensures var o := TickBundle(order, tick);
      Deserialize(EMPTY, Header(o), Body(o)).1.Ok? <==> Pushable(order, tick)
    ensures Pushable(order, tick) ==> Arrives(TickBundle(order, tick), Outcomes(order, tick))
  {
    var vs, rs := TickTrees(order, tick), Outcomes(order, tick);
    forall i | 0 <= i < |vs| ensures Reads(vs[i], rs[i]) && (Finite(tick) ==> Valid(vs[i])) {
      TickReads(order, tick, i);
    }
    if !Finite(tick) {
      EmptyWalk(order, tick.updateAgent);
      TickReads(order, tick, 0);
    }
    ReadTexts(vs, rs);
  }

  // ---------- the trace's own commands ----------

  function Sends(ms: seq<TickMulticast>): (r: seq<Command>)
    ensures |r| == |ms|
  {
    seq(|ms|, i requires 0 <= i < |ms| => SendCommand(ms[i]))
  }

  function ClipCasts(ms: seq<TickMulticast>): (r: seq<TickMulticast>)
    ensures |r| == |ms|
  {
    seq(|ms|, i requires 0 <= i < |ms| => ClipCast(ms[i]))
  }

  /** The commands a tick stands for. */
  function OwnCommands(tick: TimeTick): seq<Command> {
    (if tick.updateAgent == map[] then [] else [Locations(tick.updateAgent)])
    + Sends(tick.multicast)
  }

  /** The commands handled for a tick whose multicasts all have recipients. */
  function TickCommands(order: seq<Bytes>, tick: TimeTick): seq<Command>
    requires forall i :: 0 <= i < |order| ==> order[i] in tick.updateAgent
  {
    (if order == [] then [] else [Moves(order, tick.updateAgent)])
    + Sends(ClipCasts(tick.multicast))
  }

  /** No id, recipient or data of the tick holds a NUL. */
  predicate NulFreeTick(tick: TimeTick) {
    && (forall id :: id in tick.updateAgent ==> NulFreeText(id))
    && (forall i :: 0 <= i < |tick.multicast| ==> NulFreeCast(tick.multicast[i]))
  }

  predicate NulFreeCast(m: TickMulticast) {
    NulFreeText(m.data) && forall i :: 0 <= i < |m.receivers| ==> NulFreeText(m.receivers[i])
  }

  lemma CastKept(m: TickMulticast)
    ensures SendCommand(ClipCast(m)) == SendCommand(m) <==> NulFreeCast(m)
  {
    CStringFixed(m.data);
    TextsKept(m.receivers);
  }

  lemma SendsKept(ms: seq<TickMulticast>)
    ensures Sends(ClipCasts(ms)) == Sends(ms) <==> forall i :: 0 <= i < |ms| ==> NulFreeCast(ms[i])
  {
    forall i | 0 <= i < |ms| ensures Sends(ClipCasts(ms))[i] == Sends(ms)[i] <==> NulFreeCast(ms[i]) {
      CastKept(ms[i]);
    }
  }

  lemma SplitEqual<T>(p: seq<T>, s: seq<T>, q: seq<T>, t: seq<T>)
    requires |p| == |q|
    ensures p + s == q + t <==> p == q && s == t
  {
    assert (p + s)[..|p|] == p && (p + s)[|p|..] == s;
    assert (q + t)[..|q|] == q && (q + t)[|q|..] == t;
  }

  lemma {:induction false} PlacedIsNulFree(es: seq<Entry>, id: Bytes)
    requires id in PlacesOf(ClipEntries(es))
    ensures NulFreeText(id)
  {
    var init, e := es[..|es| - 1], es[|es| - 1];
    assert ClipEntries(es)[..|es| - 1] == ClipEntries(init);
    CStringFixed(e.0);
    if id != CString(e.0) { PlacedIsNulFree(init, id); }
  }

  lemma MovesKept(order: seq<Bytes>, places: map<Bytes, DPoint>)
    requires Walks(order, places.Keys, LexLess)
    requires forall i :: 0 <= i < |order| ==> order[i] in places
    ensures Moves(order, places) == Locations(places) <==> forall id :: id in places ==> NulFreeText(id)
  {
    var es := Entries(order, places);
    WalkedPlaces(order, places);
    if forall id :: id in places ==> NulFreeText(id) {
      forall i | 0 <= i < |es| ensures ClipEntries(es)[i] == es[i] {
        CStringFixed(order[i]);
      }
      assert ClipEntries(es) == es;
    } else {
      var id :| id in places && !NulFreeText(id);
      if id in PlacesOf(ClipEntries(es)) { PlacedIsNulFree(es, id); }
    }
  }

  /** The commands handled are the trace's own exactly when the tick holds no NUL. */
  lemma TickKept(order: seq<Bytes>, tick: TimeTick)
    requires Walks(order, tick.updateAgent.Keys, LexLess)
    requires forall i :: 0 <= i < |order| ==> order[i] in tick.updateAgent
    ensures TickCommands(order, tick) == OwnCommands(tick) <==> NulFreeTick(tick)
  {
    EmptyWalk(order, tick.updateAgent);
    MovesKept(order, tick.updateAgent);
    SendsKept(tick.multicast);
    SplitEqual(if order == [] then [] else [Moves(order, tick.updateAgent)], Sends(ClipCasts(tick.multicast)),
               if order == [] then [] else [Locations(tick.updateAgent)], Sends(tick.multicast));
  }

  // ---------- pushing a tick ----------

  /** Serialize a tick and decode it at once; `order` is how its map of places is walked. */
  method PushTick(tick: TimeTick, order: seq<Bytes>) returns (messages: MessageConglomerate, r: Result<()>)
    requires forall i :: 0 <= i < |order| ==> order[i] in tick.updateAgent
    ensures fresh(messages)
    ensures var o := TickBundle(order, tick); r == Deserialize(EMPTY, Header(o), Body(o)).1
    ensures var o := TickBundle(order, tick); r.Ok? ==> messages.View() == Deserialize(EMPTY, Header(o), Body(o)).0
  {
    var ongoing := new OngoingSerialization();
    ongoing.SerializeBegin(SERVER_ID, OUR_ID);
    if order != [] {
      var tree := MakeLocations(tick, order);
      ongoing.AddGeneric(Print(tree, false));
    }
    AddSends(ongoing, tick.multicast);
    TickTexts(order, tick);
    var head, body := ongoing.SerializeEnd();
    messages := new MessageConglomerate();
    r := DeserializeV1(head, body, messages);
  }

  lemma TickTexts(order: seq<Bytes>, tick: TimeTick)
    requires forall i :: 0 <= i < |order| ==> order[i] in tick.updateAgent
    ensures var o := Begin(FRESH, SERVER_ID, OUR_ID);
      TickBundle(order, tick) == Serializer.AddAll(
        if order == [] then o else Serializer.Add(o, Print(LocationsTree(Entries(order, tick.updateAgent)), false)),
        OldFormat.Texts(SendTrees(tick.multicast)))
  {
    var sends := SendTrees(tick.multicast);
    if order == [] {
      assert TickTrees(order, tick) == sends;
    } else {
      var tree := LocationsTree(Entries(order, tick.updateAgent));
      assert OldFormat.Texts(TickTrees(order, tick)) == [Print(tree, false)] + OldFormat.Texts(sends);
    }
  }

  method AddSends(ongoing: OngoingSerialization, ms: seq<TickMulticast>)
    modifies ongoing
    ensures ongoing.View() == Serializer.AddAll(old(ongoing.View()), OldFormat.Texts(SendTrees(ms)))
  {
    var i := 0;
    while i < |ms|
      invariant 0 <= i <= |ms|
      invariant ongoing.View() == Serializer.AddAll(old(ongoing.View()), OldFormat.Texts(SendTrees(ms[..i])))
    {
      var tree := SendTree(ms[i]);
      TextsStep(old(ongoing.View()), SendTrees(ms[..i]), tree);
      assert SendTrees(ms[..i + 1]) == SendTrees(ms[..i]) + [tree];
      ongoing.AddGeneric(Print(tree, false));
      i := i + 1;
    }
    assert ms[..i] == ms;
  }

  method MakeLocations(tick: TimeTick, order: seq<Bytes>) returns (tree: Json)
    requires forall i :: 0 <= i < |order| ==> order[i] in tick.updateAgent
    ensures tree == LocationsTree(Entries(order, tick.updateAgent))
  {
    var items: seq<Json> := [];
    var i := 0;
    while i < |order|
      invariant 0 <= i <= |order|
      invariant items == PlaceTrees(Entries(order, tick.updateAgent)[..i])
    {
      items := items + [PlaceTree((order[i], tick.updateAgent[order[i]]))];
      i := i + 1;
    }
    assert Entries(order, tick.updateAgent)[..i] == Entries(order, tick.updateAgent);
    tree := Obj([Member("locations", Arr(items)), Member("msg_type", Str("all_locations"))]);
  }

  lemma TextsStep(o: Ongoing, trees: seq<Json>, tree: Json)
    ensures Serializer.AddAll(o, OldFormat.Texts(trees + [tree]))
      == Serializer.Add(Serializer.AddAll(o, OldFormat.Texts(trees)), Print(tree, false))
  {
    var msg := Print(tree, false);
    assert OldFormat.Texts(trees + [tree]) == OldFormat.Texts(trees) + [msg];
    AddAllState(o, OldFormat.Texts(trees));
    AddAllState(o, OldFormat.Texts(trees) + [msg]);
    JoinAppend(OldFormat.Texts(trees), [msg]);
    LengthsAppend(OldFormat.Texts(trees), [msg]);
    JoinOne(msg);
    Assoc(o.messages, Join(OldFormat.Texts(trees)), msg);
    Assoc(o.msgLengths, Lengths(OldFormat.Texts(trees)), [|msg|]);
  }
}
