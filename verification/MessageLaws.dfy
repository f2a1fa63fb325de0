/** What each kind of message does to the registry, told from the fields of its JSON object. */
module MessageLaws {
  import opened Octets
  import opened JsonText
  import opened JsonReader
  import opened Conglomerate
  import opened Messages
  import opened AgentRegistry
  import opened AgentHistory

  // ---------- agents ----------

  /** A list of strings under a name, or nothing under it, which counts as an empty list. */
  ghost predicate Lists(root: Json, name: Bytes, ids: seq<Bytes>) {
    match Field(root, name)
    case None => ids == []
    case Some(v) => v == Arr(Strings(ids))
  }

  lemma {:induction false} AddsSet(w: World, ids: seq<Bytes>, id: Bytes)
    ensures FateOf(AddAgents(w, ids), id)
      == if id in ids && FateOf(w, id) == Absent then Alive(None) else FateOf(w, id)
    decreases |ids|
  {
    if ids != [] {
      AddsSet(AddAgent(w, ids[0]), ids[1..], id);
      assert id in ids <==> id == ids[0] || id in ids[1..];
    }
  }

  lemma {:induction false} RemovesSet(w: World, ids: seq<Bytes>, id: Bytes)
    requires RemoveAgents(w, ids).Ok?
    ensures FateOf(RemoveAgents(w, ids).value, id) == if id in ids then Absent else FateOf(w, id)
    decreases |ids|
  {
    if ids != [] {
      RemovesSet(RemoveAgent(w, ids[0]).value, ids[1..], id);
      assert id in ids <==> id == ids[0] || id in ids[1..];
    }
  }

  lemma AgentsParse(root: Json, add: seq<Bytes>, rem: seq<Bytes>)
    requires root.Obj? && Lists(root, "add", add) && Lists(root, "rem", rem)
    ensures ParseCommand("new_agents", root) == Ok(Agents(add, rem))
  {
    StringsBack(add);
    StringsBack(rem);
  }

  /** What becomes of one id. */
  function AgentsFate(f: Fate, added: bool, removed: bool): Fate {
    if removed then Absent else if added && f == Absent then Alive(None) else f
  }

  /** In every world, an agents message raises exactly when it removes an id whose entry is null.
      Otherwise the ids it removes are absent, those it adds are new agents if they were absent, all
      others are as before, and nothing is sent. Either list may be missing. */
  lemma AgentsHandled(w: World, root: Json, add: seq<Bytes>, rem: seq<Bytes>)
    requires root.Obj? && Lists(root, "add", add) && Lists(root, "rem", rem)
    ensures var r := Handle(w, "new_agents", root);
      && (r.Raised? <==> exists id :: id in rem && FateOf(w, id) == Blocked)
      && (r.Ok? ==> r.value.sent == w.sent && r.value.packetCount == w.packetCount)
      && (r.Ok? ==> forall id :: FateOf(r.value, id) == AgentsFate(FateOf(w, id), id in add, id in rem))
  {
    AgentsParse(root, add, rem);
    RaisesExactlyOnNull(w, Agents(add, rem));
    if Apply(w, Agents(add, rem)).Ok? {
      CommandSends(w, Agents(add, rem));
      forall id
        ensures FateOf(Apply(w, Agents(add, rem)).value, id) == AgentsFate(FateOf(w, id), id in add, id in rem)
      {
        AddsSet(w, add, id);
        RemovesSet(AddAgents(w, add), rem, id);
      }
    }
  }

  /** A list that is no array raises. */
  lemma AgentsNeedLists(w: World, root: Json)
    requires root.Obj?
    requires
      || (Field(root, "add").Some? && !Field(root, "add").value.Arr?)
      || (Field(root, "add").None? && Field(root, "rem").Some? && !Field(root, "rem").value.Arr?)
    ensures Handle(w, "new_agents", root) == Raised(BadField)
  {
  }

  /** The members of a list of strings are converted one by one, and one that cannot be raises. */
  lemma {:induction false} StringsEach(items: seq<Json>)
    ensures StringsOf(items).Ok? <==> forall i :: 0 <= i < |items| ==> AsString(items[i]).Ok?
    ensures StringsOf(items).Ok? ==>
      && |StringsOf(items).value| == |items|
      && forall i :: 0 <= i < |items| ==> AsString(items[i]) == Ok(StringsOf(items).value[i])
    ensures StringsOf(items).Raised? ==> StringsOf(items).why == BadField
  {
    if items != [] {
      StringsEach(items[1..]);
      assert forall i :: 1 <= i < |items| ==> items[i] == items[1..][i - 1];
      assert forall i :: 0 <= i < |items| - 1 ==> items[1..][i] == items[i + 1];
    }
  }

  /** A string is itself, a flag is its printed word, nothing is the empty text, and nothing else
      converts to a string. */
  lemma StringConversions(v: Json)
    ensures AsString(v).Ok? <==> v.Str? || v.Bool? || v.Null?
    ensures v.Str? ==> AsString(v) == Ok(v.text)
    ensures v.Bool? ==> AsString(v) == Ok(Print(v, false))
    ensures v.Null? ==> AsString(v) == Ok([])
    ensures AsString(v).Raised? ==> AsString(v).why == BadField
  {
  }

  // ---------- locations ----------

  /** A number that stands for a coordinate: a double's own text, or an integer's with a zero fraction. */
  ghost predicate Coordinate(v: Json, text: Bytes) {
    v == Real(text) || (v.Int? && text == Decimal(v.n) + ".0")
  }

  /** One entry of a list of locations. */
  ghost predicate Describes(item: Json, e: Entry) {
    && Field(item, "id") == Some(Str(e.0))
    && Field(item, "x").Some? && Coordinate(Field(item, "x").value, e.1.x)
    && Field(item, "y").Some? && Coordinate(Field(item, "y").value, e.1.y)
  }

  /** An integer coordinate has the text of a double of its value: an integer token of that value and
      a zero fraction. */
  lemma IntegerCoordinate(n: int)
    ensures var r := AsDouble(Int(n));
      && r.Ok? && IsRealToken(r.value) && |r.value| > 2
      && r.value[|r.value| - 2..] == ".0"
      && IsIntToken(r.value[..|r.value| - 2]) && TokenValue(r.value[..|r.value| - 2]) == n
  {
    DecimalRoundTrip(n);
    var t := Decimal(n) + ".0";
    assert t[|Decimal(n)|] == '.';
    assert !IsIntToken(t) by {
      if t[0] == '-' { assert t[1..][|Decimal(n)| - 1] == '.'; }
    }
    forall i | 0 <= i < |t| ensures IsNumberByte(t[i]) {
      if i < |Decimal(n)| { assert t[i] == Decimal(n)[i]; }
    }
    assert t[0] == Decimal(n)[0];
  }

  lemma {:induction false} ZeroDigits(t: Bytes)
    requires AllDigits(t)
    ensures DigitsValue(t) == 0 <==> forall i :: 0 <= i < |t| ==> t[i] == '0'
  {
    if t != [] {
      ZeroDigits(t[..|t| - 1]);
      assert forall i :: 0 <= i < |t| - 1 ==> t[i] == t[..|t| - 1][i];
    }
  }

  /** A null counts as zero and a flag as zero or one; text and containers are no coordinates. */
  lemma OtherCoordinates(b: bool)
    ensures forall v: Json :: v.Str? || v.Arr? || v.Obj? ==> AsDouble(v) == Raised(BadField)
    ensures AsDouble(Null) == AsDouble(Int(0)) && AsDouble(Bool(b)) == AsDouble(Int(if b then 1 else 0))
  {
    assert Decimal(0) == ['0'] && Decimal(1) == ['1'];
    assert ['0'] + ".0" == "0.0" && ['1'] + ".0" == "1.0";
  }

  /** A flag is itself; nothing, and what is empty, is false, and everything else true. */
  lemma OtherFlags(v: Json)
    ensures v.Bool? ==> AsBool(v) == v.flag
    ensures v == Null || v == Str([]) || v == Arr([]) || v == Obj([]) ==> !AsBool(v)
    ensures (v.Str? && v != Str([])) || (v.Arr? && v != Arr([])) || (v.Obj? && v != Obj([])) ==> AsBool(v)
  {
  }

  predicate HasNonZero(t: Bytes) {
    exists i :: 0 <= i < |t| && '1' <= t[i] <= '9'
  }

  /** In a text without an exponent any non-zero digit makes a double true. */
  lemma PlainFlag(t: Bytes)
    requires forall i :: 0 <= i < |t| ==> t[i] != 'e' && t[i] != 'E'
    ensures AsBool(Real(t)) <==> HasNonZero(t)
  {
    if HasNonZero(t) {
      var i :| 0 <= i < |t| && '1' <= t[i] <= '9';
      assert 'e' !in t[..i] && 'E' !in t[..i];
    }
  }

  lemma DigitsNonZero(t: Bytes)
    requires AllDigits(t)
    ensures HasNonZero(t) <==> DigitsValue(t) != 0
    ensures forall i :: 0 <= i < |t| ==> t[i] != 'e' && t[i] != 'E'
  {
    ZeroDigits(t);
    if DigitsValue(t) != 0 {
      var i :| 0 <= i < |t| && t[i] != '0';
      assert '1' <= t[i] <= '9';
    }
  }

  lemma MinusNonZero(t: Bytes)
    ensures HasNonZero("-" + t) <==> HasNonZero(t)
    ensures (forall i :: 0 <= i < |t| ==> t[i] != 'e' && t[i] != 'E') ==>
      forall i :: 0 <= i < |"-" + t| ==> ("-" + t)[i] != 'e' && ("-" + t)[i] != 'E'
  {
    var s := "-" + t;
    assert forall i :: 0 <= i < |t| ==> s[i + 1] == t[i];
    assert forall i :: 1 <= i < |s| ==> s[i] == t[i - 1];
    if HasNonZero(t) {
      var i :| 0 <= i < |t| && '1' <= t[i] <= '9';
      assert '1' <= s[i + 1] <= '9';
    }
  }

  lemma DecimalNonZero(n: int)
    ensures HasNonZero(Decimal(n)) <==> n != 0
    ensures forall i :: 0 <= i < |Decimal(n)| ==> Decimal(n)[i] != 'e' && Decimal(n)[i] != 'E'
  {
    var m := if n < 0 then -n else n;
    DigitsRoundTrip(m);
    DigitsNonZero(Digits(m));
    MinusNonZero(Digits(m));
  }

  /** A number is true exactly when it is not zero, whether it is an integer or a double's text. */
  lemma NumbersAsFlags(n: int)
    ensures AsBool(Int(n)) <==> n != 0
    ensures AsBool(Real(Decimal(n) + ".0")) <==> n != 0
  {
    var d, t := Decimal(n), Decimal(n) + ".0";
    DecimalNonZero(n);
    PlainFlag(t);
    assert forall i :: 0 <= i < |d| ==> t[i] == d[i];
    assert t[|d|] == '.' && t[|d| + 1] == '0';
  }

  lemma CoordinateBack(v: Json, text: Bytes)
    requires Coordinate(v, text)
    ensures AsDouble(v) == Ok(text)
  {
  }

  lemma DescribedPlace(item: Json, e: Entry)
    requires Describes(item, e)
    ensures ParsePlace(item) == Ok(e)
  {
    CoordinateBack(Field(item, "x").value, e.1.x);
    CoordinateBack(Field(item, "y").value, e.1.y);
  }

  lemma {:induction false} DescribedPlaces(items: seq<Json>, es: seq<Entry>)
    requires |items| == |es| && forall i :: 0 <= i < |items| ==> Describes(items[i], es[i])
    ensures ParsePlaces(items, map[]) == Ok(PlacesOf(es))
    decreases |items|
  {
    if items != [] {
      var n := |items| - 1;
      assert Describes(items[n], es[n]);
      DescribedPlaces(items[..n], es[..n]);
      DescribedPlace(items[n], es[n]);
      ParsePlacesAppend(items[..n], items[n], map[]);
      assert items == items[..n] + [items[n]];
    }
  }

  /** Whether an id is among the entries, and where its last entry puts it. */
  function LastEntry(es: seq<Entry>, id: Bytes): Option<DPoint> {
    if es == [] then None
    else if es[|es| - 1].0 == id then Some(es[|es| - 1].1)
    else LastEntry(es[..|es| - 1], id)
  }

  lemma {:induction false} PlacesAreLast(es: seq<Entry>, id: Bytes)
    ensures LastEntry(es, id) == if id in PlacesOf(es) then Some(PlacesOf(es)[id]) else None
  {
    if es != [] { PlacesAreLast(es[..|es| - 1], id); }
  }

  function MovedFate(f: Fate, last: Option<DPoint>): Fate {
    if f.Alive? && last.Some? then Alive(last) else f
  }

  /** In every world, a location message moves each live agent it names to that agent's last entry,
      and changes nothing else. */
  lemma LocationsHandled(w: World, root: Json, items: seq<Json>, es: seq<Entry>)
    requires Field(root, "locations") == Some(Arr(items)) && |items| == |es|
    requires forall i :: 0 <= i < |items| ==> Describes(items[i], es[i])
    ensures var r := Handle(w, "all_locations", root);
      && r.Ok? && r.value.sent == w.sent && r.value.packetCount == w.packetCount
      && forall id :: FateOf(r.value, id) == MovedFate(FateOf(w, id), LastEntry(es, id))
  {
    LocationsParse(root, items, es);
    var v := Place(w, PlacesOf(es));
    assert Handle(w, "all_locations", root) == Ok(v);
    forall id ensures FateOf(v, id) == MovedFate(FateOf(w, id), LastEntry(es, id)) {
      PlacesAreLast(es, id);
      PlaceFate(w, PlacesOf(es), id);
    }
  }

  lemma LocationsParse(root: Json, items: seq<Json>, es: seq<Entry>)
    requires Field(root, "locations") == Some(Arr(items)) && |items| == |es|
    requires forall i :: 0 <= i < |items| ==> Describes(items[i], es[i])
    ensures ParseCommand("all_locations", root) == Ok(Locations(PlacesOf(es)))
  {
    DescribedPlaces(items, es);
  }

  lemma PlaceFate(w: World, places: map<Bytes, DPoint>, id: Bytes)
    ensures FateOf(Place(w, places), id)
      == MovedFate(FateOf(w, id), if id in places then Some(places[id]) else None)
  {
  }

  /** Without its list, or with an entry that misses a field, a location message raises. */
  lemma LocationsNeedFields(w: World, root: Json)
    requires root.Obj? && (Field(root, "locations").Some? ==> !Field(root, "locations").value.Arr?)
    ensures Handle(w, "all_locations", root) == Raised(BadField)
  {
  }

  lemma PlaceNeedsFields(item: Json)
    requires Field(item, "id").None? || Field(item, "x").None? || Field(item, "y").None?
    ensures ParsePlace(item) == Raised(BadField)
  {
  }

  // ---------- sends ----------

  /** An object whose six fields are those of a send. */
  ghost predicate Carries(root: Json, from: Bytes, to: seq<Bytes>, broadcast: bool,
                          data: Bytes, format: Bytes, tech: Bytes)
  {
    && Field(root, "from_id") == Some(Str(from))
    && Field(root, "to_ids") == Some(Arr(Strings(to)))
    && Field(root, "broadcast") == Some(Bool(broadcast))
    && Field(root, "data") == Some(Str(data))
    && Field(root, "format") == Some(Str(format))
    && Field(root, "tech") == Some(Str(tech))
  }

  /** Any send parses to its own sender, recipients, data, format and technology, unless it is a
      broadcast that names recipients. */
  lemma SendParses(root: Json, from: Bytes, to: seq<Bytes>, broadcast: bool, data: Bytes, format: Bytes, tech: Bytes)
    requires Carries(root, from, to, broadcast, data, format, tech)
    ensures var r := ParseOpaqueSend(root);
      && (r.Ok? <==> !broadcast || to == [])
      && (r.Raised? ==> r.why == BroadcastWithRecipients)
      && (r.Ok? ==>
        && r.value.fromId == from && r.value.toIds == to && r.value.broadcast == broadcast
        && r.value.data == data && r.value.format == format && r.value.tech == tech)
  {
    StringsBack(to);
  }

  lemma {:induction false} SendEachFates(w: World, from: Bytes, to: seq<Bytes>, data: Bytes, id: Bytes)
    ensures FateOf(SendEach(w, from, to, data), id) == LookedFate(FateOf(w, id), id in to)
    decreases |to|
  {
    if to != [] {
      SendEachFates(SendOne(w, from, to[0], data), from, to[1..], data, id);
      assert id in to <==> id == to[0] || id in to[1..];
    }
  }

  function LookedFate(f: Fate, looked: bool): Fate {
    if looked && f == Absent then Blocked else f
  }

  /** A send looks up its sender and, if that is live, its recipients. */
  predicate LooksUp(w: World, from: Bytes, to: seq<Bytes>, id: Bytes) {
    id == from || (Live(w, from) && id in to)
  }

  lemma SendFates(w: World, m: OpaqueSend, id: Bytes)
    ensures FateOf(Transmit(w, m), id)
      == LookedFate(FateOf(w, id), LooksUp(w, m.fromId, m.toIds, id))
  {
    SendEachFates(LookUp(w, m.fromId), m.fromId, m.toIds, m.data, id);
  }

  /** In every world, handling a send whose sender is live sends one packet from that sender to each
      live recipient occurrence, in order, with its data; with any other sender it sends none. Of the
      registry it changes only that the ids it looked up in vain get a null entry. */
  lemma SendHandled(w: World, root: Json, from: Bytes, to: seq<Bytes>, broadcast: bool,
                    data: Bytes, format: Bytes, tech: Bytes)
    requires Carries(root, from, to, broadcast, data, format, tech)
    ensures var r := Handle(w, "opaque_send", root);
      && (r.Ok? <==> !broadcast || to == [])
      && (r.Raised? ==> r.why == BroadcastWithRecipients)
      && (r.Ok? ==> forall id :: FateOf(r.value, id) == LookedFate(FateOf(w, id), LooksUp(w, from, to, id)))
      && (r.Ok? && Live(w, from) ==> r.value.sent == w.sent + Packets(from, LiveOnes(w, to), data))
      && (r.Ok? && !Live(w, from) ==> r.value.sent == w.sent)
  {
    SendParses(root, from, to, broadcast, data, format, tech);
    assert |"opaque_send"| == 11 && |"all_locations"| == 13 && |"new_agents"| == 10 && |"ticked_simmob"| == 13;
    if !broadcast || to == [] {
      var m := OpaqueSend(from, to, broadcast, data, format, tech);
      CommandSends(w, Send(m));
      forall id ensures FateOf(Transmit(w, m), id) == LookedFate(FateOf(w, id), LooksUp(w, from, to, id)) {
        SendFates(w, m, id);
      }
      assert w.sent + Packets(from, [], data) == w.sent;
    }
  }

  /** A send raises when any of its six fields is missing, or its recipients are no list. */
  lemma SendNeedsFields(root: Json)
    requires root.Obj?
    requires
      || Field(root, "from_id").None? || Field(root, "to_ids").None? || Field(root, "broadcast").None?
      || Field(root, "data").None? || Field(root, "format").None? || Field(root, "tech").None?
      || !Field(root, "to_ids").value.Arr?
    ensures ParseOpaqueSend(root) == Raised(BadField)
  {
  }

  // ---------- the other types ----------

  /** The end of the server's tick changes no world and never raises, whatever the message holds. */
  lemma TickedHandled(w: World, root: Json)
    ensures Handle(w, "ticked_simmob", root) == Ok(w)
  {
    assert |"all_locations"| == 13 && "all_locations"[0] == 'a' && "ticked_simmob"[0] == 't';
    assert |"new_agents"| == 10 && |"ticked_simmob"| == 13;
  }

  /** The two old types raise as obsolete, and every type that is not one of the six as unknown. */
  lemma OthersRaise(w: World, kind: Bytes, root: Json)
    requires kind !in ["all_locations", "new_agents", "ticked_simmob", "opaque_send"]
    ensures Handle(w, kind, root)
      == Raised(if kind == "MULTICAST" || kind == "UNICAST" then ObsoleteMessage else UnknownHandler)
  {
    var known: seq<Bytes> := ["all_locations", "new_agents", "ticked_simmob", "opaque_send"];
    assert known[0] == "all_locations" && known[1] == "new_agents";
    assert known[2] == "ticked_simmob" && known[3] == "opaque_send";
  }

  /** A message that is not JSON raises in every handler that looks at it. */
  lemma BinaryRaises(kind: Bytes)
    requires kind == "all_locations" || kind == "new_agents" || kind == "opaque_send"
    ensures ParseCommand(kind, Null) == Raised(BinaryMessage)
  {
    assert |"opaque_send"| == 11 && |"all_locations"| == 13 && |"new_agents"| == 10 && |"ticked_simmob"| == 13;
  }
}
