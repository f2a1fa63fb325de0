/** Wi-Fi Direct roles: one group, owned by the agent that comes first in the registry. */
module Roles {
  import opened Octets
  import opened Ordering

  datatype Role = GroupOwner | Client

  datatype Group = Group(groupId: Bytes, owner: Bytes, members: seq<Bytes>)

  /** The registry as a map from its keys to the ids of the agents stored under them. */
  type Ids = map<Bytes, Bytes>

  /** The agents' ids in the order the registry is walked. */
  function Listed(agents: Ids, order: seq<Bytes>): (r: seq<Bytes>)
    requires forall i :: 0 <= i < |order| ==> order[i] in agents
    ensures |r| == |order|
  {
    seq(|order|, i requires 0 <= i < |order| => agents[order[i]])
  }

  /** The role an agent works out for itself: owner if its id is that of the first entry. */
  function RoleOf(agents: Ids, order: seq<Bytes>, id: Bytes): Role
    requires order != [] && order[0] in agents
  {
    if id == agents[order[0]] then GroupOwner else Client
  }

  class WfdAgent {
    const agentId: Bytes
    var role: Role
    var groupId: nat

    constructor (agentId: Bytes)
      ensures this.agentId == agentId
    {
      this.agentId := agentId;
      role, groupId := Client, 0;
    }

    method FigureOutGroup(agents: Ids, order: seq<Bytes>)
      requires order != [] && order[0] in agents
      modifies this
      ensures groupId == 0 && role == RoleOf(agents, order, agentId)
    {
      groupId := 0;
      role := if agentId == agents[order[0]] then GroupOwner else Client;
    }
  }

  /** The membership map after all `ids` have joined the group. */
  function Joined(membership: map<Bytes, Bytes>, ids: seq<Bytes>, group: Bytes): map<Bytes, Bytes> {
    if ids == [] then membership
    else Joined(membership, ids[..|ids| - 1], group)[ids[|ids| - 1] := group]
  }

  lemma {:induction false} JoinedCovers(membership: map<Bytes, Bytes>, ids: seq<Bytes>, group: Bytes, id: Bytes)
    ensures id in Joined(membership, ids, group) <==> id in membership || id in ids
    ensures id in ids ==> Joined(membership, ids, group)[id] == group
    ensures id in membership && id !in ids ==> Joined(membership, ids, group)[id] == membership[id]
  {
    if ids != [] {
      var init, last := ids[..|ids| - 1], ids[|ids| - 1];
      JoinedCovers(membership, init, group, id);
      assert id in ids <==> id in init || id == last by { assert ids == init + [last]; }
    }
  }

  class GroupAssignment {
    var groups: map<Bytes, Group>
    var membership: map<Bytes, Bytes>

    constructor ()
      ensures groups == map[] && membership == map[]
    {
      groups, membership := map[], map[];
    }

    /** Put every agent into one group owned by the first; an empty registry has no first entry. */
    method DoRoleAssignment(agents: Ids, order: seq<Bytes>) returns (r: Result<bool>)
      requires Walks(order, agents.Keys, LexLess)
      modifies this
      ensures r.Raised? <==> agents == map[]
      ensures r.Raised? ==> r.why == EmptyRegistry && groups == old(groups) && membership == old(membership)
      ensures r.Ok? ==>
        && r.value
        && order != [] && (forall i :: 0 <= i < |order| ==> order[i] in agents)
        && var owner := agents[order[0]];
        && groups == old(groups)[owner := Group(owner, owner, Listed(agents, order))]
        && membership == Joined(old(membership), Listed(agents, order), owner)
    {
      WalkWithin(agents, order);
      if order == [] {
        return Raised(EmptyRegistry);
      }
      var owner := agents[order[0]];
      var members := JoinAll(agents, order, owner);
      groups := groups[owner := Group(owner, owner, members)];
      r := Ok(true);
    }

    /** Put every agent of the walk into the group, and list them. */
    method JoinAll(agents: Ids, order: seq<Bytes>, group: Bytes) returns (members: seq<Bytes>)
      requires forall i :: 0 <= i < |order| ==> order[i] in agents
      modifies this`membership
      ensures members == Listed(agents, order)
      ensures membership == Joined(old(membership), Listed(agents, order), group)
    {
      members := [];
      ghost var ids := Listed(agents, order);
      var i := 0;
      while i < |order|
        invariant 0 <= i <= |order|
        invariant members == ids[..i]
        invariant membership == Joined(old(membership), ids[..i], group)
      {
        assert ids[..i + 1][..i] == ids[..i] && ids[..i + 1] == ids[..i] + [ids[i]];
        members := members + [agents[order[i]]];
        membership := membership[agents[order[i]] := group];
        i := i + 1;
      }
      assert ids[..i] == ids;
    }
  }

  lemma WalkWithin(agents: Ids, order: seq<Bytes>)
    requires Walks(order, agents.Keys, LexLess)
    ensures forall i :: 0 <= i < |order| ==> order[i] in agents
    ensures order == [] <==> agents == map[]
  {
    assert forall i :: 0 <= i < |order| ==> order[i] in order;
    assert order != [] ==> order[0] in order && order[0] in agents;
    if agents != map[] { EmptyHasNoWalk(agents, order); }
  }

  lemma ListedAll(agents: Ids, order: seq<Bytes>)
    requires Walks(order, agents.Keys, LexLess)
    ensures forall i :: 0 <= i < |order| ==> order[i] in agents
    ensures forall id :: id in Listed(agents, order) <==> id in agents.Values
  {
    assert forall i :: 0 <= i < |order| ==> order[i] in order;
    forall id ensures id in Listed(agents, order) <==> id in agents.Values {
      if id in Listed(agents, order) {
        var i :| 0 <= i < |order| && Listed(agents, order)[i] == id;
        assert order[i] in agents.Keys;
      }
      if id in agents.Values {
        var k :| k in agents && agents[k] == id;
        assert k in order;
        var i :| 0 <= i < |order| && order[i] == k;
        assert Listed(agents, order)[i] == id;
      }
    }
  }

  /** Each agent stored under its own id, as registration stores them. */
  ghost predicate OwnKeys(agents: Ids) {
    forall k :: k in agents ==> agents[k] == k
  }

  /** The group's owner is the one agent that takes itself for the owner, and it is the least id;
      the group's members are all the agents, each once. */
  lemma RolesAgree(agents: Ids, order: seq<Bytes>)
    requires Walks(order, agents.Keys, LexLess) && OwnKeys(agents) && agents != map[]
    ensures order != [] && (forall i :: 0 <= i < |order| ==> order[i] in agents)
    ensures var owner := agents[order[0]];
      && owner in agents
      && (forall id :: id in agents ==> (RoleOf(agents, order, id) == GroupOwner <==> id == owner))
      && (forall id :: id in agents && id != owner ==> LexLess(owner, id))
    ensures Listed(agents, order) == order
    ensures Joined(map[], Listed(agents, order), agents[order[0]]) == map id | id in agents :: agents[order[0]]
  {
    EmptyHasNoWalk(agents, order);
    ListedAll(agents, order);
    LexStrictTotal();
    WalkHead(order, agents.Keys, LexLess);
    assert order[0] in agents;
    assert Listed(agents, order) == order;
    var joined := Joined(map[], order, agents[order[0]]);
    forall id ensures id in joined <==> id in agents
              ensures id in agents ==> joined[id] == agents[order[0]]
    {
      JoinedCovers(map[], order, agents[order[0]], id);
    }
  }

  lemma EmptyHasNoWalk(agents: Ids, order: seq<Bytes>)
    requires Walks(order, agents.Keys, LexLess) && agents != map[]
    ensures order != []
  {
    assert agents.Keys != {};
    var k :| k in agents.Keys;
    assert k in order;
  }
}
