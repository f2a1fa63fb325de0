/**
 Registration with the server: connect, answer the identity request, take the
 agents, set up, and wait for the acknowledgement.

 The peer and the network are a script: how each connection attempt, each
 read and each write turns out. What lies beyond the script fails.
 */
module Handshake {
  import opened Octets
  import opened JsonText
  import opened BundleVersion
  import opened Serializer
  import opened Conglomerate
  import opened Deserializer
  import opened Session
  import opened Messages
  import opened Ordering
  import opened Roles
  import opened PrintedBundles
  import opened JsonDoubles
  import OldFormat
  import opened MessageLaws

  datatype Attempt = Connected | Refused | Unresolved

  datatype Incoming = Arrived(frame: Frame) | ReadFails | ReadThrows

  datatype Script = Script(connects: seq<Attempt>, incoming: seq<Incoming>, writes: seq<bool>)

  function AttemptAt(s: Script, i: nat): Attempt {
    if i < |s.connects| then s.connects[i] else Refused
  }

  function IncomingAt(s: Script, i: nat): Incoming {
    if i < |s.incoming| then s.incoming[i] else ReadFails
  }

  predicate WriteAt(s: Script, i: nat) {
    i < |s.writes| && s.writes[i]
  }

  const TIMEOUT: nat := 200

  // ---------- messages ----------

  function IdResponse(token: Bytes): Json {
    Obj([Member("id", Str(OUR_ID)), Member("msg_type", Str("id_response")),
         Member("services", Arr([Str("srv_all_locations")])), Member("token", Str(token)), Member("type", Str("ns-3"))])
  }

  function GroupTree(g: Group): Json {
    Obj([Member("clients", Arr(Strings(g.members))), Member("go", Str(g.owner))])
  }

  function GoClient(g: Group): Json {
    Obj([Member("groups", Arr([GroupTree(g)])), Member("msg_type", Str("go_client"))])
  }

  /** The one-message bundle that a tree is written as. */
  function Written(tree: Json): Frame {
    var o := Bundle(OUR_ID, SERVER_ID, [Print(tree, false)]);
    Frame(Header(o), Body(o))
  }

  /** A bundle that must hold one message of the given type: its tree, or nothing if it does not. */
  function SingleOf(f: Frame, kind: Bytes): Result<Option<Json>> {
    var r := Deserialize(EMPTY, f.header, f.text).1;
    if r.Raised? then Raised(r.why)
    else
      var c := Deserialize(EMPTY, f.header, f.text).0;
      Ok(if |c.ranges| == 1 && |c.types| == 1 && |c.trees| == 1 && c.types[0] == kind then Some(c.trees[0]) else None)
  }

  // ---------- what success takes, read off the script ----------

  /** How read `i` turns out when a single message of the given type is expected. */
  function Reading(s: Script, i: nat, kind: Bytes): Result<Option<Json>> {
    match IncomingAt(s, i)
    case Arrived(f) => SingleOf(f, kind)
    case ReadFails => Ok(None)
    case ReadThrows => Raised(BadVersion)
  }

  /** The message that read `i` takes, if the read works and the bundle holds just that. */
  function Taken(s: Script, i: nat, kind: Bytes): Option<Json> {
    if Reading(s, i, kind).Ok? then Reading(s, i, kind).value else None
  }

  function TokenOf(tree: Json): Option<Bytes> {
    match Field(tree, "token")
    case None => None
    case Some(v) => (match AsString(v) case Ok(t) => Some(t) case Raised(_) => None)
  }

  function NewIds(tree: Json): Option<seq<Bytes>> {
    match ParseNewAgents(tree)
    case Ok(Agents(add, _)) => if add == [] then None else Some(add)
    case _ => None
  }

  /** Some attempt within the limit connects, and all before it are refused. */
  ghost predicate ConnectsWithin(s: Script, limit: nat) {
    exists k: nat :: k < limit && AttemptAt(s, k) == Connected && forall j: nat :: j < k ==> AttemptAt(s, j) == Refused
  }

  /** Some attempt within the limit does not find the server, and all before it are refused. */
  ghost predicate UnresolvedWithin(s: Script, limit: nat) {
    exists k: nat :: k < limit && AttemptAt(s, k) == Unresolved && forall j: nat :: j < k ==> AttemptAt(s, j) == Refused
  }

  /** Reading the identity request raises, or its token is nothing that converts to a string. */
  ghost predicate IdentityRaises(s: Script) {
    || Reading(s, 0, "id_request").Raised?
    || (Taken(s, 0, "id_request").Some?
        && Field(Taken(s, 0, "id_request").value, "token").Some?
        && AsString(Field(Taken(s, 0, "id_request").value, "token").value).Raised?)
  }

  /** Reading the agents raises, or their message is malformed. */
  ghost predicate AgentsRaise(s: Script) {
    || Reading(s, 1, "new_agents").Raised?
    || (Taken(s, 1, "new_agents").Some? && ParseNewAgents(Taken(s, 1, "new_agents").value).Raised?)
  }

  ghost predicate Identified(s: Script) {
    Taken(s, 0, "id_request").Some? && TokenOf(Taken(s, 0, "id_request").value).Some? && WriteAt(s, 0)
  }

  /** The token of the identity request. */
  ghost function Token(s: Script): Bytes
    requires Identified(s)
  {
    TokenOf(Taken(s, 0, "id_request").value).value
  }

  /** The ids of the agents message. */
  ghost function Announced(s: Script): seq<Bytes>
    requires Populated(s)
  {
    NewIds(Taken(s, 1, "new_agents").value).value
  }

  ghost predicate Populated(s: Script) {
    Taken(s, 1, "new_agents").Some? && NewIds(Taken(s, 1, "new_agents").value).Some?
  }

  ghost predicate Acknowledged(s: Script) {
    Taken(s, 2, "id_ack").Some?
  }

  ghost predicate Succeeds(s: Script, wfd: bool) {
    ConnectsWithin(s, 200) && Identified(s) && Populated(s) && (wfd ==> WriteAt(s, 1)) && Acknowledged(s)
  }

  /** Where registration ends in an exception: each step only once those before it have succeeded. */
  ghost predicate Raises(s: Script, wfd: bool) {
    || UnresolvedWithin(s, 200)
    || (ConnectsWithin(s, 200) && IdentityRaises(s))
    || (ConnectsWithin(s, 200) && Identified(s) && AgentsRaise(s))
    || (ConnectsWithin(s, 200) && Identified(s) && Populated(s) && (wfd ==> WriteAt(s, 1))
        && Reading(s, 2, "id_ack").Raised?)
  }

  /** A connection that ends before the identity request makes registration fail, and one whose bytes
      are no bundle makes it raise. */
  lemma FirstRead(s: Script, wfd: bool)
    requires ConnectsWithin(s, 200)
    ensures IncomingAt(s, 0) == ReadFails ==> !Succeeds(s, wfd) && !Raises(s, wfd)
    ensures IncomingAt(s, 0) == ReadThrows ==> Raises(s, wfd)
  {
  }

  // ---------- the registration object ----------

  /** What registration did, in order. */
  datatype Action = Heard(kind: Bytes) | Wrote(frame: Frame)

  function Stored(agents: Ids, ids: seq<Bytes>): Ids
    decreases |ids|
  {
    if ids == [] then agents
    else Stored(if ids[0] in agents then agents else agents[ids[0] := ids[0]], ids[1..])
  }

  /** A group of all the agents, each once, owned by the least. */
  ghost predicate Covers(g: Group, agents: Ids) {
    Walks(g.members, agents.Keys, LexLess) && g.members != [] && g.owner == g.groupId == g.members[0]
  }

  /** The nodes by role: the group's owner alone, and everyone else in the group's order. */
  ghost predicate Split(g: Group, owners: seq<Bytes>, clients: seq<Bytes>) {
    g.members != [] && owners == [g.owner] && clients == g.members[1..]
  }

  /** The ids whose agents work out the given role, in order. */
  function WithRole(agents: Ids, order: seq<Bytes>, ids: seq<Bytes>, role: Role): seq<Bytes>
    requires order != [] && order[0] in agents
  {
    if ids == [] then []
    else
      var id := ids[|ids| - 1];
      WithRole(agents, order, ids[..|ids| - 1], role) + (if RoleOf(agents, order, id) == role then [id] else [])
  }

  lemma {:induction false} RoleSplit(agents: Ids, order: seq<Bytes>, k: nat)
    requires order != [] && order[0] in agents && 0 < k <= |order|
    requires forall i :: 0 <= i < |order| ==> (RoleOf(agents, order, order[i]) == GroupOwner <==> i == 0)
    ensures WithRole(agents, order, order[..k], GroupOwner) == [order[0]]
    ensures WithRole(agents, order, order[..k], Client) == order[1..k]
    decreases k
  {
    assert order[..k][..k - 1] == order[..k - 1];
    if k == 1 {
      assert order[..0] == [] && order[..1] == [order[0]];
    } else {
      RoleSplit(agents, order, k - 1);
      assert order[1..k] == order[1..k - 1] + [order[k - 1]];
    }
  }

  /** The first agent alone takes itself for the owner. */
  lemma RolesSplit(agents: Ids, order: seq<Bytes>)
    requires Walks(order, agents.Keys, LexLess) && OwnKeys(agents) && agents != map[]
    ensures order != [] && (forall i :: 0 <= i < |order| ==> order[i] in agents) && Listed(agents, order) == order
    ensures WithRole(agents, order, order, GroupOwner) == [order[0]]
    ensures WithRole(agents, order, order, Client) == order[1..]
  {
    RolesAgree(agents, order);
    LexStrictTotal();
    forall i | 0 <= i < |order| ensures RoleOf(agents, order, order[i]) == GroupOwner <==> i == 0 {
      if i > 0 { assert LexLess(order[0], order[i]); }
    }
    RoleSplit(agents, order, |order|);
    assert order[..|order|] == order;
  }

  class Registration {
    const script: Script
    const wfd: bool
    var readCount: nat
    var writeCount: nat
    var agents: Ids
    var log: seq<Action>
    var owners: seq<Bytes>
    var clients: seq<Bytes>
    const assignment: GroupAssignment

    constructor (script: Script, wfd: bool)
      ensures this.script == script && this.wfd == wfd
      ensures readCount == 0 && writeCount == 0 && agents == map[] && log == [] && owners == clients == []
      ensures fresh(assignment)
    {
      this.script, this.wfd := script, wfd;
      readCount, writeCount, agents, log := 0, 0, map[], [];
      owners, clients := [], [];
      assignment := new GroupAssignment();
    }

    method DoConnect(limit: nat) returns (r: Result<bool>)
      requires limit > 0
      ensures r == Ok(true) <==> ConnectsWithin(script, limit)
      ensures r.Raised? <==> UnresolvedWithin(script, limit)
      ensures r.Raised? ==> r.why == ServerUnresolved
    {
      var sec := 0;
      var attempt := AttemptAt(script, 0);
      while attempt == Refused
        invariant 0 <= sec < limit
        invariant attempt == AttemptAt(script, sec)
        invariant forall j: nat :: j < sec ==> AttemptAt(script, j) == Refused
        decreases limit - sec
      {
        sec := sec + 1;
        if sec == limit {
          return Ok(false);
        }
        attempt := AttemptAt(script, sec);
      }
      r := if attempt == Connected then Ok(true) else Raised(ServerUnresolved);
    }

    /** Read one bundle and expect a single message of the given type in it. */
    method Expect(kind: Bytes) returns (r: Result<Option<Json>>)
      modifies this`readCount, this`log
      ensures readCount == old(readCount) + 1
      ensures r == Reading(script, old(readCount), kind)
      ensures log == old(log) + (if r.Ok? && r.value.Some? then [Heard(kind)] else [])
    {
      var incoming := IncomingAt(script, readCount);
      readCount := readCount + 1;
      if incoming.ReadFails? {
        return Ok(None);
      }
      if incoming.ReadThrows? {
        return Raised(BadVersion);
      }
      var conglom := new MessageConglomerate();
      var done := DeserializeV1(incoming.frame.header, incoming.frame.text, conglom);
      if done.Raised? {
        return Raised(done.why);
      }
      if |conglom.offsetsV1| != 1 || |conglom.messageBases| != 1 || |conglom.messagesJson| != 1 {
        return Ok(None);
      }
      if conglom.messageBases[0] != kind {
        return Ok(None);
      }
      log := log + [Heard(kind)];
      r := Ok(Some(conglom.messagesJson[0]));
    }

    /** A synchronous write to the connection. */
    method ConnSend(header: BundleHeader, body: Bytes) returns (ok: bool)
      modifies this`writeCount, this`log
      ensures ok == WriteAt(script, old(writeCount)) && writeCount == old(writeCount) + 1
      ensures log == old(log) + (if ok then [Wrote(Frame(header, body))] else [])
    {
      ok := writeCount < |script.writes| && script.writes[writeCount];
      writeCount := writeCount + 1;
      if ok {
        log := log + [Wrote(Frame(header, body))];
      }
    }

    /** Serialize one message and write it. */
    method Say(tree: Json) returns (ok: bool)
      modifies this`writeCount, this`log
      ensures ok == WriteAt(script, old(writeCount)) && writeCount == old(writeCount) + 1
      ensures log == old(log) + (if ok then [Wrote(Written(tree))] else [])
    {
      var head, msg := SerializeOne(Print(tree, false));
      ok := ConnSend(head, msg);
    }

    method DoWhoAreYou() returns (r: Result<bool>)
      requires readCount == 0 && writeCount == 0
      modifies this`readCount, this`writeCount, this`log
      ensures r == Ok(true) <==> Identified(script)
      ensures r.Raised? <==> IdentityRaises(script)
      ensures r == Ok(true) ==>
        && readCount == 1 && writeCount == 1
        && log == old(log) + [Heard("id_request"), Wrote(Written(IdResponse(Token(script))))]
    {
      var got :- Expect("id_request");
      if got.None? {
        return Ok(false);
      }
      var token := Field(got.value, "token");
      if token.None? {
        return Ok(false);
      }
      var text :- AsString(token.value);
      var ok := Say(IdResponse(text));
      r := Ok(ok);
    }

    method DoAgentsInfo() returns (r: Result<bool>)
      requires readCount == 1
      modifies this`readCount, this`log, this`agents
      ensures r == Ok(true) <==> Populated(script)
      ensures r.Raised? <==> AgentsRaise(script)
      ensures r == Ok(true) ==>
        && readCount == 2
        && log == old(log) + [Heard("new_agents")]
        && agents == Stored(old(agents), Announced(script))
    {
      var got :- Expect("new_agents");
      if got.None? {
        return Ok(false);
      }
      var info :- ParseNewAgents(got.value);
      if !info.Agents? || info.add == [] {
        return Ok(false);
      }
      AddEach(info.add);
      r := Ok(true);
    }

    method AddEach(ids: seq<Bytes>)
      modifies this`agents
      ensures agents == Stored(old(agents), ids)
    {
      ghost var goal := Stored(agents, ids);
      var i := 0;
      while i < |ids|
        invariant 0 <= i <= |ids|
        invariant Stored(agents, ids[i..]) == goal
      {
        assert ids[i..][1..] == ids[i + 1..];
        if ids[i] !in agents {
          agents := agents[ids[i] := ids[i]];
        }
        i := i + 1;
      }
    }

    /** Each agent of the Wi-Fi Direct form works out its role and joins the nodes of that role. */
    method InitAgents(order: seq<Bytes>)
      requires order != [] && forall i :: 0 <= i < |order| ==> order[i] in agents
      modifies this`owners, this`clients
      ensures owners == old(owners) + WithRole(agents, order, Listed(agents, order), GroupOwner)
      ensures clients == old(clients) + WithRole(agents, order, Listed(agents, order), Client)
    {
      var i := 0;
      ghost var ids := Listed(agents, order);
      while i < |order|
        invariant 0 <= i <= |order|
        invariant owners == old(owners) + WithRole(agents, order, ids[..i], GroupOwner)
        invariant clients == old(clients) + WithRole(agents, order, ids[..i], Client)
      {
        assert ids[..i + 1][..i] == ids[..i];
        InitAgent(agents[order[i]], order);
        i := i + 1;
      }
      assert ids[..i] == ids;
    }

    method InitAgent(id: Bytes, order: seq<Bytes>)
      requires order != [] && order[0] in agents
      modifies this`owners, this`clients
      ensures if RoleOf(agents, order, id) == GroupOwner then owners == old(owners) + [id] && clients == old(clients)
        else owners == old(owners) && clients == old(clients) + [id]
    {
      var agent := new WfdAgent(id);
      agent.FigureOutGroup(agents, order);
      if agent.role == GroupOwner {
        owners := owners + [id];
      } else {
        clients := clients + [id];
      }
    }

    /** Only the Wi-Fi Direct form sets roles and sends anything here. */
    method DoInitialization() returns (r: Result<bool>)
      requires writeCount == 1 && agents != map[] && OwnKeys(agents) && owners == clients == []
      modifies this`writeCount, this`log, this`owners, this`clients, assignment
      ensures r == Ok(wfd ==> WriteAt(script, 1))
      ensures r == Ok(true) && !wfd ==> log == old(log) && owners == clients == []
      ensures r == Ok(true) && wfd ==>
        exists g: Group ::
          && Covers(g, agents) && Split(g, owners, clients)
          && log == old(log) + [Wrote(Written(GoClient(g)))]
    {
      if !wfd {
        return Ok(true);
      }
      var group := AssignRoles();
      var ok := Say(GoClient(group));
      r := Ok(ok);
    }

    /** Form the group, and let every agent work out its role. */
    method AssignRoles() returns (group: Group)
      requires agents != map[] && OwnKeys(agents) && owners == clients == []
      modifies this`owners, this`clients, assignment
      ensures Covers(group, agents) && Split(group, owners, clients)
    {
      var order := WalkIds(agents.Keys);
      RolesSplit(agents, order);
      var grouped := assignment.DoRoleAssignment(agents, order);
      group := assignment.groups[agents[order[0]]];
      InitAgents(order);
    }

    method DoReady() returns (r: Result<bool>)
      requires readCount == 2
      modifies this`readCount, this`log
      ensures r == Ok(true) <==> Acknowledged(script)
      ensures r.Raised? <==> Reading(script, 2, "id_ack").Raised?
      ensures r == Ok(true) ==> log == old(log) + [Heard("id_ack")]
    {
      var got :- Expect("id_ack");
      r := Ok(got.Some?);
    }

    /** Registration succeeds exactly on the scripts that allow it, and then it has taken the three
        messages in order, answered the first with its token, and, for Wi-Fi Direct, announced a
        group of all the agents before the last. */
    method Start() returns (r: Result<bool>)
      requires readCount == 0 && writeCount == 0 && agents == map[] && log == [] && owners == clients == []
      modifies this, assignment
      ensures r == Ok(true) <==> Succeeds(script, wfd)
      ensures r.Raised? <==> Raises(script, wfd)
      ensures r == Ok(true) ==> Registered(script, wfd, agents, owners, clients, log)
    {
      var connected :- DoConnect(TIMEOUT);
      if !connected {
        return Ok(false);
      }
      var introduced :- Introduce();
      if !introduced {
        return Ok(false);
      }
      r := Finish();
      if r == Ok(true) {
        RegisteredAll(script, wfd, agents, owners, clients, log);
      }
    }

    /** Answer the identity request and take the agents. */
    method Introduce() returns (r: Result<bool>)
      requires readCount == 0 && writeCount == 0 && agents == map[]
      modifies this`readCount, this`writeCount, this`log, this`agents
      ensures r == Ok(true) <==> Identified(script) && Populated(script)
      ensures r.Raised? <==> IdentityRaises(script) || (Identified(script) && AgentsRaise(script))
      ensures r == Ok(true) ==>
        && readCount == 2 && writeCount == 1
        && agents == Stored(map[], Announced(script)) && agents != map[] && OwnKeys(agents)
        && log == old(log) + Opening(script)
    {
      var known :- DoWhoAreYou();
      if !known {
        return Ok(false);
      }
      ghost var asked := log;
      r := DoAgentsInfo();
      if r == Ok(true) {
        AnnouncedStored(script);
        JoinedLog(old(log), asked, log, script);
      }
    }

    /** What follows once the agents are known. */
    method Finish() returns (r: Result<bool>)
      requires readCount == 2 && writeCount == 1 && agents != map[] && OwnKeys(agents) && owners == clients == []
      modifies this`readCount, this`writeCount, this`log, this`owners, this`clients, assignment
      ensures r == Ok(true) <==> (wfd ==> WriteAt(script, 1)) && Acknowledged(script)
      ensures r.Raised? <==> (wfd ==> WriteAt(script, 1)) && Reading(script, 2, "id_ack").Raised?
      ensures r == Ok(true) ==> Finished(wfd, agents, owners, clients, old(log), log)
    {
      var initialized := DoInitialization();
      if initialized == Ok(false) {
        return Ok(false);
      }
      r := DoReady();
    }
  }

  /** The identity request, the answer with its token, and the agents. */
  ghost function Opening(s: Script): seq<Action>
    requires Identified(s)
  {
    [Heard("id_request"), Wrote(Written(IdResponse(Token(s)))), Heard("new_agents")]
  }

  /** The group is announced, for Wi-Fi Direct, and then the acknowledgement is taken. */
  ghost predicate Finished(wfd: bool, agents: Ids, owners: seq<Bytes>, clients: seq<Bytes>,
                           before: seq<Action>, log: seq<Action>)
  {
    if wfd then
      exists g: Group ::
        && Covers(g, agents) && Split(g, owners, clients)
        && log == before + [Wrote(Written(GoClient(g)))] + [Heard("id_ack")]
    else owners == clients == [] && log == before + [Heard("id_ack")]
  }

  /** What registration has done when it returns true. */
  ghost predicate Registered(s: Script, wfd: bool, agents: Ids, owners: seq<Bytes>, clients: seq<Bytes>,
                             log: seq<Action>)
  {
    && Identified(s) && Populated(s)
    && agents == Stored(map[], Announced(s))
    && Finished(wfd, agents, owners, clients, Opening(s), log)
  }

  lemma RegisteredAll(s: Script, wfd: bool, agents: Ids, owners: seq<Bytes>, clients: seq<Bytes>, log: seq<Action>)
    requires Identified(s) && Populated(s) && agents == Stored(map[], Announced(s))
    requires Finished(wfd, agents, owners, clients, [] + Opening(s), log)
    ensures Registered(s, wfd, agents, owners, clients, log)
  {
    assert [] + Opening(s) == Opening(s);
  }

  lemma JoinedLog(before: seq<Action>, asked: seq<Action>, log: seq<Action>, s: Script)
    requires Identified(s)
    requires asked == before + [Heard("id_request"), Wrote(Written(IdResponse(Token(s))))]
    requires log == asked + [Heard("new_agents")]
    ensures log == before + Opening(s)
  {
  }

  lemma AnnouncedStored(s: Script)
    requires Populated(s)
    ensures var agents := Stored(map[], Announced(s)); agents != map[] && OwnKeys(agents)
  {
    StoredOwn(map[], Announced(s));
    assert Announced(s)[0] in Stored(map[], Announced(s));
  }

  lemma {:induction false} StoredOwn(agents: Ids, ids: seq<Bytes>)
    requires OwnKeys(agents)
    ensures OwnKeys(Stored(agents, ids))
    ensures forall id :: id in Stored(agents, ids) <==> id in agents || id in ids
    decreases |ids|
  {
    if ids != [] {
      var next := if ids[0] in agents then agents else agents[ids[0] := ids[0]];
      StoredOwn(next, ids[1..]);
      assert forall id :: id in ids <==> id == ids[0] || id in ids[1..];
    }
  }

  // ---------- what the peer reads ----------

  lemma IdResponseLiterals()
    ensures NulFreeText("id") && NulFreeText("msg_type") && NulFreeText("services") && NulFreeText("token")
    ensures NulFreeText("type") && NulFreeText("id_response") && NulFreeText("srv_all_locations")
    ensures NulFreeText("ns-3") && NulFreeText(OUR_ID)
  {
  }

  lemma ClipFive(a: Member, b: Member, c: Member, d: Member, e: Member)
    requires NulFreeText(a.name) && NulFreeText(b.name) && NulFreeText(c.name)
    requires NulFreeText(d.name) && NulFreeText(e.name)
    ensures Clip(Obj([a, b, c, d, e])) == Obj([ClipValue(a), ClipValue(b), ClipValue(c), ClipValue(d), ClipValue(e)])
  {
    ClipObject([a, b, c, d, e]);
  }

  /** An answer with any names and any fixed texts. */
  function Answer(names: seq<Bytes>, fixed: seq<Bytes>, token: Bytes): Json
    requires |names| == 5 && |fixed| == 4
  {
    Obj([Member(names[0], Str(fixed[0])), Member(names[1], Str(fixed[1])), Member(names[2], Arr([Str(fixed[2])])),
         Member(names[3], Str(token)), Member(names[4], Str(fixed[3]))])
  }

  lemma ClipAnswer(names: seq<Bytes>, fixed: seq<Bytes>, token: Bytes)
    requires |names| == 5 && |fixed| == 4
    requires NulFreeText(names[0]) && NulFreeText(names[1]) && NulFreeText(names[2])
    requires NulFreeText(names[3]) && NulFreeText(names[4])
    requires NulFreeText(fixed[0]) && NulFreeText(fixed[1]) && NulFreeText(fixed[2]) && NulFreeText(fixed[3])
    ensures Clip(Answer(names, fixed, token)) == Answer(names, fixed, CString(token))
  {
    KeptText(fixed[0]);
    KeptText(fixed[1]);
    KeptText(fixed[2]);
    KeptText(fixed[3]);
    ClipAlone(Str(fixed[2]));
    ClipFive(Member(names[0], Str(fixed[0])), Member(names[1], Str(fixed[1])), Member(names[2], Arr([Str(fixed[2])])),
             Member(names[3], Str(token)), Member(names[4], Str(fixed[3])));
  }

  lemma ClipAlone(v: Json)
    ensures Clip(Arr([v])) == Arr([Clip(v)])
  {
    ClipItemsAt([v], 0);
    assert ClipItems([v]) == [Clip(v)];
  }

  lemma ClipIdResponse(token: Bytes)
    ensures Clip(IdResponse(token)) == IdResponse(CString(token))
  {
    IdResponseLiterals();
    var names: seq<Bytes> := ["id", "msg_type", "services", "token", "type"];
    var fixed: seq<Bytes> := [OUR_ID, "id_response", "srv_all_locations", "ns-3"];
    ClipAnswer(names, fixed, token);
  }

  lemma IdResponseFields(token: Bytes)
    ensures MessageType(IdResponse(token)) == Ok("id_response") && TokenOf(IdResponse(token)) == Some(token)
  {
    var ms := IdResponse(token).members;
    assert |"id"| == 2 && |"msg_type"| == 8 && |"services"| == 8 && |"token"| == 5 && |"type"| == 4;
    assert "msg_type"[0] == 'm' && "services"[0] == 's';
    assert DistinctNames(ms);
    FindAt(ms, 1);
    FindAt(ms, 3);
  }

  /** What the peer finds in the answer, field by field. */
  lemma AnswerFields(token: Bytes)
    requires |Print(IdResponse(token), false)| < 0x100_0000
    ensures var r := SingleOf(Written(IdResponse(token)), "id_response");
      && r.Ok? && r.value.Some?
      && var tree := r.value.value;
      && Field(tree, "msg_type") == Some(Str("id_response"))
      && Field(tree, "id") == Some(Str("987654321"))
      && Field(tree, "type") == Some(Str("ns-3"))
      && Field(tree, "services") == Some(Arr([Str("srv_all_locations")]))
      && Field(tree, "token") == Some(Str(CString(token)))
  {
    EchoDecodes(token);
    AllFields(CString(token));
  }

  lemma AnswerNames(ms: seq<Member>)
    requires |ms| == 5 && ms[0].name == "id" && ms[1].name == "msg_type" && ms[2].name == "services"
    requires ms[3].name == "token" && ms[4].name == "type"
    ensures DistinctNames(ms)
  {
    assert |"id"| == 2 && |"msg_type"| == 8 && |"services"| == 8 && |"token"| == 5 && |"type"| == 4;
    assert "msg_type"[0] == 'm' && "services"[0] == 's';
  }

  lemma AllFields(token: Bytes)
    ensures var tree := IdResponse(token);
      && Field(tree, "msg_type") == Some(Str("id_response")) && Field(tree, "id") == Some(Str("987654321"))
      && Field(tree, "type") == Some(Str("ns-3")) && Field(tree, "token") == Some(Str(token))
      && Field(tree, "services") == Some(Arr([Str("srv_all_locations")]))
  {
    var ms := IdResponse(token).members;
    AnswerNames(ms);
    FindAt(ms, 0);
    FindAt(ms, 1);
    FindAt(ms, 2);
    FindAt(ms, 3);
    FindAt(ms, 4);
  }

  lemma IdResponseValid(token: Bytes)
    ensures Valid(IdResponse(token))
  {
    var ms := IdResponse(token).members;
    forall i | 0 <= i < |ms| ensures Valid(ms[i].value) { }
  }

  lemma SingleWritten(tree: Json, kind: Bytes)
    requires tree.Obj? && Valid(tree) && MessageType(Clip(tree)) == Ok(kind)
    ensures if |Print(tree, false)| < 0x100_0000 then SingleOf(Written(tree), kind) == Ok(Some(Clip(tree)))
      else SingleOf(Written(tree), kind).Raised?
    ensures Narrow(Written(tree).header) == Written(tree).header
  {
    OneRoundTrip(OUR_ID, SERVER_ID, tree);
  }

  /** The answer the peer reads, whose header survives the wire: one `id_response` with the token up to
      its first NUL. It echoes the token exactly when the token holds no NUL; a text of 2^24 bytes or
      more does not arrive. */
  lemma EchoDecodes(token: Bytes)
    ensures var r := SingleOf(Written(IdResponse(token)), "id_response");
      && (r.Ok? <==> |Print(IdResponse(token), false)| < 0x100_0000)
      && (r.Ok? ==> r.value == Some(IdResponse(CString(token))) && TokenOf(r.value.value) == Some(CString(token)))
      && (r.Ok? ==> (TokenOf(r.value.value) == Some(token) <==> NulFreeText(token)))
    ensures Narrow(Written(IdResponse(token)).header) == Written(IdResponse(token)).header
  {
    ClipIdResponse(token);
    IdResponseFields(CString(token));
    IdResponseValid(token);
    SingleWritten(IdResponse(token), "id_response");
    CStringFixed(token);
  }

  function ClipGroup(g: Group): Group {
    g.(owner := CString(g.owner), members := ClipTexts(g.members))
  }

  lemma ClipGroupNamed(clients: Bytes, go: Bytes, g: Group)
    requires NulFreeText(clients) && NulFreeText(go)
    ensures Clip(Obj([Member(clients, Arr(Strings(g.members))), Member(go, Str(g.owner))]))
      == Obj([Member(clients, Arr(Strings(ClipTexts(g.members)))), Member(go, Str(CString(g.owner)))])
  {
    ClipStrings(g.members);
    ClipTwo(Member(clients, Arr(Strings(g.members))), Member(go, Str(g.owner)));
  }

  lemma ClipListNamed(list: Bytes, item: Json, kind: Bytes, value: Bytes)
    requires NulFreeText(list) && NulFreeText(kind) && NulFreeText(value)
    ensures Clip(Obj([Member(list, Arr([item])), Member(kind, Str(value))]))
      == Obj([Member(list, Arr([Clip(item)])), Member(kind, Str(value))])
  {
    KeptText(value);
    ClipAlone(item);
    ClipTwo(Member(list, Arr([item])), Member(kind, Str(value)));
  }

  lemma GroupLiterals()
    ensures NulFreeText("clients") && NulFreeText("go")
  {
  }

  lemma ClipGroupTree(g: Group)
    ensures Clip(GroupTree(g)) == GroupTree(ClipGroup(g))
  {
    GroupLiterals();
    ClipGroupNamed("clients", "go", g);
  }

  lemma GoClientLiterals()
    ensures NulFreeText("groups") && NulFreeText("msg_type") && NulFreeText("go_client")
  {
  }

  lemma ClipGoClient(g: Group)
    ensures Clip(GoClient(g)) == GoClient(ClipGroup(g))
  {
    GoClientLiterals();
    ClipGroupTree(g);
    ClipListNamed("groups", GroupTree(g), "msg_type", "go_client");
  }

  lemma GoClientShape(g: Group)
    ensures MessageType(GoClient(g)) == Ok("go_client") && Valid(GoClient(g))
  {
    var ms := GoClient(g).members;
    assert |"groups"| == 6 && |"msg_type"| == 8;
    assert DistinctNames(ms);
    FindAt(ms, 1);
    var inner := GroupTree(g).members;
    forall i | 0 <= i < |inner| ensures Valid(inner[i].value) { }
    forall i | 0 <= i < |ms| ensures Valid(ms[i].value) { }
  }

  /** The announcement the peer reads, whose header survives the wire: one `go_client` with the group's
      ids up to their first NULs, which is the group itself exactly when none of them holds a NUL. */
  lemma GroupDecodes(g: Group)
    ensures var r := SingleOf(Written(GoClient(g)), "go_client");
      && (r.Ok? <==> |Print(GoClient(g), false)| < 0x100_0000)
      && (r.Ok? ==> r.value == Some(GoClient(ClipGroup(g))))
      && (r.Ok? ==> (r.value == Some(GoClient(g)) <==>
        NulFreeText(g.owner) && forall i :: 0 <= i < |g.members| ==> NulFreeText(g.members[i])))
    ensures Narrow(Written(GoClient(g)).header) == Written(GoClient(g)).header
  {
    ClipGoClient(g);
    GoClientShape(g);
    GoClientShape(ClipGroup(g));
    SingleWritten(GoClient(g), "go_client");
    SameGroup(g);
  }

  lemma SameGroup(g: Group)
    ensures GoClient(ClipGroup(g)) == GoClient(g) <==>
      NulFreeText(g.owner) && forall i :: 0 <= i < |g.members| ==> NulFreeText(g.members[i])
  {
    CStringFixed(g.owner);
    TextsKept(g.members);
    StringsBack(g.members);
    StringsBack(ClipTexts(g.members));
    var a, b := GroupTree(ClipGroup(g)), GroupTree(g);
    assert a == b <==> Strings(ClipTexts(g.members)) == Strings(g.members) && CString(g.owner) == g.owner by {
      assert a == b ==> a.members[0] == b.members[0] && a.members[1] == b.members[1];
    }
    var m, n := GoClient(ClipGroup(g)).members, GoClient(g).members;
    assert m == n ==> m[0] == n[0] && m[0].value.items[0] == n[0].value.items[0];
  }

  lemma GroupFields(g: Group)
    ensures Field(GoClient(g), "groups") == Some(Arr([GroupTree(g)]))
    ensures Field(GroupTree(g), "go") == Some(Str(g.owner))
    ensures Field(GroupTree(g), "clients") == Some(Arr(Strings(g.members)))
  {
    var outer, inner := GoClient(g).members, GroupTree(g).members;
    assert |"groups"| == 6 && |"msg_type"| == 8 && |"clients"| == 7 && |"go"| == 2;
    assert DistinctNames(outer) && DistinctNames(inner);
    FindAt(outer, 0);
    FindAt(inner, 0);
    FindAt(inner, 1);
  }

  /** What the peer finds in the announcement: a list of one group, whose owner is its group owner and
      whose clients are all its members, in order. */
  lemma AnnouncementFields(g: Group)
    requires |Print(GoClient(g), false)| < 0x100_0000
    ensures var r := SingleOf(Written(GoClient(g)), "go_client");
      && r.Ok? && r.value.Some?
      && exists group: Json ::
        && Field(r.value.value, "groups") == Some(Arr([group]))
        && Field(group, "go") == Some(Str(CString(g.owner)))
        && Field(group, "clients") == Some(Arr(Strings(ClipTexts(g.members))))
  {
    GroupDecodes(g);
    GroupFields(ClipGroup(g));
  }

  // ---------- what is taken ----------

  /** From a bundle of proper messages the one message is taken exactly when it is alone and of the
      expected type. */
  lemma TakesOneAlone(sendId: Bytes, destId: Bytes, vs: seq<Json>, kind: Bytes)
    requires OldFormat.Proper(vs) && Short(OldFormat.Texts(vs))
    ensures var o := Bundle(sendId, destId, OldFormat.Texts(vs));
      SingleOf(Frame(Header(o), Body(o)), kind)
        == Ok(if |vs| == 1 && MessageType(Clip(vs[0])) == Ok(kind) then Some(Clip(vs[0])) else None)
  {
    forall i | 0 <= i < |vs| ensures vs[i].Obj? && Doubles(vs[i]) {
      ValidDoubles(vs[i]);
    }
    PrintedRoundTrip(sendId, destId, vs);
    if |vs| == 1 { ClipItemsAt(vs, 0); }
  }

  /** The ids of an agents message are taken exactly when it adds some. */
  lemma AnnouncedIds(tree: Json, add: seq<Bytes>, rem: seq<Bytes>)
    requires tree.Obj? && Lists(tree, "add", add) && Lists(tree, "rem", rem)
    ensures NewIds(tree) == if add == [] then None else Some(add)
  {
    AgentsParse(tree, add, rem);
  }
}
