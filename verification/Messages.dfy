/** The messages handlers understand: reading them from JSON trees, and the trees the client makes. */
module Messages {
  import opened Octets
  import opened JsonText
  import opened Conglomerate

  /** A coordinate is the text the writer prints for it. */
  datatype DPoint = DPoint(x: Bytes, y: Bytes)

  datatype OpaqueSend = OpaqueSend(fromId: Bytes, toIds: seq<Bytes>, broadcast: bool,
                                   data: Bytes, format: Bytes, tech: Bytes)

  /** A parsed message, ready to be handled. */
  datatype Command =
    | Agents(add: seq<Bytes>, rem: seq<Bytes>)
    | Locations(places: map<Bytes, DPoint>)
    | Send(send: OpaqueSend)
    | Nothing

  // ---------- conversions ----------

  function AsDouble(v: Json): Result<Bytes> {
    match v
    case Real(lexeme) => Ok(lexeme)
    case Int(n) => Ok(Decimal(n) + ".0")
    case Null => Ok("0.0")
    case Bool(b) => Ok(if b then "1.0" else "0.0")
    case _ => Raised(BadField)
  }

  function AsBool(v: Json): bool {
    match v
    case Null => false
    case Bool(b) => b
    case Int(n) => n != 0
    case Real(lexeme) =>
      exists i :: 0 <= i < |lexeme| && '1' <= lexeme[i] <= '9' && 'e' !in lexeme[..i] && 'E' !in lexeme[..i]
    case Str(s) => s != []
    case Arr(items) => items != []
    case Obj(members) => members != []
  }

  function StringsOf(items: seq<Json>): Result<seq<Bytes>> {
    if items == [] then Ok([])
    else
      var head :- AsString(items[0]);
      var tail :- StringsOf(items[1..]);
      Ok([head] + tail)
  }

  /** A list of strings that may be missing. */
  function OptionalStrings(root: Json, name: Bytes): Result<seq<Bytes>> {
    match Field(root, name)
    case None => Ok([])
    case Some(v) => if v.Arr? then StringsOf(v.items) else Raised(BadField)
  }

  function Required(root: Json, name: Bytes): Result<Json> {
    match Field(root, name)
    case None => Raised(BadField)
    case Some(v) => Ok(v)
  }

  // ---------- parsing ----------

  function ParseNewAgents(root: Json): Result<Command> {
    if root.Null? then Raised(BinaryMessage)
    else
      var add :- OptionalStrings(root, "add");
      var rem :- OptionalStrings(root, "rem");
      Ok(Agents(add, rem))
  }

  function ParsePlace(item: Json): Result<(Bytes, DPoint)> {
    var id :- Required(item, "id");
    var x :- Required(item, "x");
    var y :- Required(item, "y");
    var name :- AsString(id);
    var px :- AsDouble(x);
    var py :- AsDouble(y);
    Ok((name, DPoint(px, py)))
  }

  /** Later entries for the same agent win. */
  function ParsePlaces(items: seq<Json>, places: map<Bytes, DPoint>): Result<map<Bytes, DPoint>>
    decreases |items|
  {
    if items == [] then Ok(places)
    else
      var place :- ParsePlace(items[0]);
      ParsePlaces(items[1..], places[place.0 := place.1])
  }

  function ParseAllLocations(root: Json): Result<Command> {
    if root.Null? then Raised(BinaryMessage)
    else
      var items :- Required(root, "locations");
      if !items.Arr? then Raised(BadField)
      else
        var places :- ParsePlaces(items.items, map[]);
        Ok(Locations(places))
  }

  function ParseOpaqueSend(root: Json): Result<OpaqueSend> {
    if root.Null? then Raised(BinaryMessage)
    else
      var from :- Required(root, "from_id");
      var to :- Required(root, "to_ids");
      var broadcast :- Required(root, "broadcast");
      var data :- Required(root, "data");
      var format :- Required(root, "format");
      var tech :- Required(root, "tech");
      if !to.Arr? then Raised(BadField)
      else
        var fromId :- AsString(from);
        var content :- AsString(data);
        var fmt :- AsString(format);
        var tch :- AsString(tech);
        var toIds :- StringsOf(to.items);
        if AsBool(broadcast) && toIds != [] then Raised(BroadcastWithRecipients)
        else Ok(OpaqueSend(fromId, toIds, AsBool(broadcast), content, fmt, tch))
  }

  /** Find the handler for a message type and let it parse its message. */
  function ParseCommand(kind: Bytes, root: Json): Result<Command> {
    if kind == "all_locations" then ParseAllLocations(root)
    else if kind == "new_agents" then ParseNewAgents(root)
    else if kind == "ticked_simmob" then Ok(Nothing)
    else if kind == "opaque_send" then
      var send :- ParseOpaqueSend(root);
      Ok(Send(send))
    else if kind == "MULTICAST" || kind == "UNICAST" then Raised(ObsoleteMessage)
    else Raised(UnknownHandler)
  }

  // ---------- lists of locations ----------

  /** One agent of a location message. */
  type Entry = (Bytes, DPoint)

  /** The map a list of entries stands for; later entries for the same agent win. */
  function PlacesOf(es: seq<Entry>): map<Bytes, DPoint> {
    if es == [] then map[] else PlacesOf(es[..|es| - 1])[es[|es| - 1].0 := es[|es| - 1].1]
  }

  lemma {:induction false} ParsePlacesAppend(a: seq<Json>, last: Json, acc: map<Bytes, DPoint>)
    requires ParsePlace(last).Ok?
    ensures ParsePlaces(a + [last], acc) ==
      match ParsePlaces(a, acc)
      case Raised(why) => Raised(why)
      case Ok(m) => Ok(m[ParsePlace(last).value.0 := ParsePlace(last).value.1])
    decreases |a|
  {
    if a == [] {
      assert a + [last] == [last] && [last][1..] == [];
    } else {
      assert (a + [last])[1..] == a[1..] + [last];
      var place := ParsePlace(a[0]);
      if place.Ok? {
        ParsePlacesAppend(a[1..], last, acc[place.value.0 := place.value.1]);
      }
    }
  }

  // ---------- looking members up ----------

  ghost predicate DistinctNames(ms: seq<Member>) {
    forall i, j :: 0 <= i < j < |ms| ==> ms[i].name != ms[j].name
  }

  lemma FindAt(ms: seq<Member>, k: nat)
    requires DistinctNames(ms) && k < |ms|
    ensures Find(ms, ms[k].name) == Some(ms[k].value)
  {
    FindsLast(ms, ms[k].name, k);
  }

  // ---------- lists of strings ----------

  function Strings(ids: seq<Bytes>): (r: seq<Json>)
    ensures |r| == |ids|
  {
    seq(|ids|, i requires 0 <= i < |ids| => Str(ids[i]))
  }

  lemma {:induction false} StringsBack(ids: seq<Bytes>)
    ensures StringsOf(Strings(ids)) == Ok(ids)
  {
    if ids != [] {
      StringsBack(ids[1..]);
      assert Strings(ids)[1..] == Strings(ids[1..]);
      assert ids == [ids[0]] + ids[1..];
    }
  }

  /** Each of the strings as the writer cuts it. */
  function ClipTexts(ids: seq<Bytes>): (r: seq<Bytes>)
    ensures |r| == |ids|
  {
    seq(|ids|, i requires 0 <= i < |ids| => CString(ids[i]))
  }

  lemma ClipStrings(ids: seq<Bytes>)
    ensures Clip(Arr(Strings(ids))) == Arr(Strings(ClipTexts(ids)))
  {
    forall i | 0 <= i < |ids| ensures ClipItems(Strings(ids))[i] == Strings(ClipTexts(ids))[i] {
      ClipItemsAt(Strings(ids), i);
    }
    assert ClipItems(Strings(ids)) == Strings(ClipTexts(ids));
  }

  lemma TextsKept(ids: seq<Bytes>)
    ensures ClipTexts(ids) == ids <==> forall i :: 0 <= i < |ids| ==> NulFreeText(ids[i])
  {
    forall i | 0 <= i < |ids| ensures ClipTexts(ids)[i] == ids[i] <==> NulFreeText(ids[i]) {
      CStringFixed(ids[i]);
    }
  }

  /** An agents message gives back the two lists it was made from, each under its own name. */
  lemma NewAgentsBack(add: seq<Bytes>, rem: seq<Bytes>)
    ensures var root := Obj([Member("add", Arr(Strings(add))), Member("msg_type", Str("new_agents")),
                             Member("rem", Arr(Strings(rem)))]);
      MessageType(root) == Ok("new_agents") && ParseNewAgents(root) == Ok(Agents(add, rem))
    ensures ParseNewAgents(Obj([Member("msg_type", Str("new_agents"))])) == Ok(Agents([], []))
  {
    var ms := [Member("add", Arr(Strings(add))), Member("msg_type", Str("new_agents")),
               Member("rem", Arr(Strings(rem)))];
    assert |"add"| == 3 && |"rem"| == 3 && |"msg_type"| == 8 && "add"[0] == 'a' && "rem"[0] == 'r';
    assert DistinctNames(ms);
    FindAt(ms, 0);
    FindAt(ms, 1);
    FindAt(ms, 2);
    StringsBack(add);
    StringsBack(rem);
    var bare := [Member("msg_type", Str("new_agents"))];
    FindsNone(bare, "add");
    FindsNone(bare, "rem");
  }
}
