/**
 * What the aggregate tree is: for each node (service) the containers whose
 * desired state is not "shutdown" and whose NodeID (ServiceID) resolves, by a
 * first-match lookup, to that node (service), in the order of the flat list.
 */
module Aggregation {
  import opened Wrappers
  import opened Entities

  /** The first position of id in ids, or None when it does not occur. */
  function FirstIndexOf(ids: seq<string>, id: string): (r: Option<nat>)
    ensures r.Some? ==> r.value < |ids| && ids[r.value] == id
    ensures r.Some? ==> forall j :: 0 <= j < r.value ==> ids[j] != id
    ensures r.None? <==> id !in ids
  {
    if ids == [] then None
    else if ids[0] == id then Some(0)
    else
      match FirstIndexOf(ids[1..], id)
      case None => None
      case Some(k) => Some(k + 1)
  }

  /** A position whose id matches, with no match before it, is the first match. */
  lemma FirstIndexAt(ids: seq<string>, id: string, i: nat)
    requires i < |ids| && ids[i] == id
    requires forall j :: 0 <= j < i ==> ids[j] != id
    ensures FirstIndexOf(ids, id) == Some(i)
  {
  }

  function NodeIds(nodes: seq<Node>): seq<string> {
    seq(|nodes|, i requires 0 <= i < |nodes| => nodes[i].id)
  }

  function ServiceIds(services: seq<Service>): seq<string> {
    seq(|services|, i requires 0 <= i < |services| => services[i].id)
  }

  function ContainerIds(containers: seq<Container>): seq<string> {
    seq(|containers|, i requires 0 <= i < |containers| => containers[i].id)
  }

  /** The two relations a container is nested by. */
  datatype Relation = ByNode | ByService

  function OwnerId(c: Container, rel: Relation): string {
    match rel
    case ByNode => c.nodeId
    case ByService => c.serviceId
  }

  /** c belongs in the nested list of the owner at position k of ownerIds. */
  predicate NestsUnder(c: Container, ownerIds: seq<string>, rel: Relation, k: nat) {
    c.desiredState != Shutdown && FirstIndexOf(ownerIds, OwnerId(c, rel)) == Some(k)
  }

  /** The nested list of the owner at position k, built by scanning cs in order. */
  function Nest(cs: seq<Container>, ownerIds: seq<string>, rel: Relation, k: nat): (nested: seq<Container>)
    ensures |nested| <= |cs|
    ensures forall i :: 0 <= i < |nested| ==> NestsUnder(nested[i], ownerIds, rel, k)
  {
    if cs == [] then []
    else
      var rest := Nest(cs[..|cs| - 1], ownerIds, rel, k);
      if NestsUnder(cs[|cs| - 1], ownerIds, rel, k) then rest + [cs[|cs| - 1]] else rest
  }

  /** Scanning one more container appends it to the nested list it belongs to and to no other. */
  lemma NestSnoc(cs: seq<Container>, c: Container, ownerIds: seq<string>, rel: Relation, k: nat)
    ensures Nest(cs + [c], ownerIds, rel, k)
         == if NestsUnder(c, ownerIds, rel, k) then Nest(cs, ownerIds, rel, k) + [c] else Nest(cs, ownerIds, rel, k)
  {
    assert (cs + [c])[..|cs|] == cs;
  }

  /**
   * after is before with, for every node k, the containers of cs that belong
   * to k appended to its nested list; nothing else about the nodes differs.
   */
  ghost predicate NodesExtended(before: seq<Node>, after: seq<Node>, cs: seq<Container>) {
    && |after| == |before|
    && forall k :: 0 <= k < |after| ==>
         after[k] == before[k].(containers := before[k].containers + Nest(cs, NodeIds(before), ByNode, k))
  }

  /** The same relation between two service lists. */
  ghost predicate ServicesExtended(before: seq<Service>, after: seq<Service>, cs: seq<Container>) {
    && |after| == |before|
    && forall k :: 0 <= k < |after| ==>
         after[k] == before[k].(containers := before[k].containers + Nest(cs, ServiceIds(before), ByService, k))
  }

  /** Appending a live container to the node it resolves to extends the nesting by that container. */
  lemma NodesStep(before: seq<Node>, mid: seq<Node>, c: Container, done: seq<Container>, owner: Option<nat>)
    requires NodesExtended(before, mid, done)
    requires c.desiredState != Shutdown
    requires owner == FirstIndexOf(NodeIds(before), c.nodeId)
    ensures owner.Some? ==> owner.value < |mid|
    ensures NodesExtended(before,
              if owner.Some? then mid[owner.value := mid[owner.value].(containers := mid[owner.value].containers + [c])] else mid,
              done + [c])
  {
    var ids := NodeIds(before);
    var after := if owner.Some? then mid[owner.value := mid[owner.value].(containers := mid[owner.value].containers + [c])] else mid;
    forall k | 0 <= k < |after|
      ensures after[k] == before[k].(containers := before[k].containers + Nest(done + [c], ids, ByNode, k))
    {
      NodeStepAt(before[k], mid[k], c, done, ids, owner, k);
      assert after[k] == if owner == Some(k) then mid[k].(containers := mid[k].containers + [c]) else mid[k];
    }
  }

  /** The step for one node. */
  lemma NodeStepAt(b: Node, m: Node, c: Container, done: seq<Container>, ids: seq<string>, owner: Option<nat>, k: nat)
    requires m == b.(containers := b.containers + Nest(done, ids, ByNode, k))
    requires c.desiredState != Shutdown && owner == FirstIndexOf(ids, OwnerId(c, ByNode))
    ensures (if owner == Some(k) then m.(containers := m.containers + [c]) else m)
         == b.(containers := b.containers + Nest(done + [c], ids, ByNode, k))
  {
    NestSnoc(done, c, ids, ByNode, k);
    assert NestsUnder(c, ids, ByNode, k) <==> owner == Some(k);
  }

  /** The same step for services. */
  lemma ServicesStep(before: seq<Service>, mid: seq<Service>, c: Container, done: seq<Container>, owner: Option<nat>)
    requires ServicesExtended(before, mid, done)
    requires c.desiredState != Shutdown
    requires owner == FirstIndexOf(ServiceIds(before), c.serviceId)
    ensures owner.Some? ==> owner.value < |mid|
    ensures ServicesExtended(before,
              if owner.Some? then mid[owner.value := mid[owner.value].(containers := mid[owner.value].containers + [c])] else mid,
              done + [c])
  {
    var ids := ServiceIds(before);
    var after := if owner.Some? then mid[owner.value := mid[owner.value].(containers := mid[owner.value].containers + [c])] else mid;
    forall k | 0 <= k < |after|
      ensures after[k] == before[k].(containers := before[k].containers + Nest(done + [c], ids, ByService, k))
    {
      ServiceStepAt(before[k], mid[k], c, done, ids, owner, k);
      assert after[k] == if owner == Some(k) then mid[k].(containers := mid[k].containers + [c]) else mid[k];
    }
  }

  /** The step for one service. */
  lemma ServiceStepAt(b: Service, m: Service, c: Container, done: seq<Container>, ids: seq<string>, owner: Option<nat>, k: nat)
    requires m == b.(containers := b.containers + Nest(done, ids, ByService, k))
    requires c.desiredState != Shutdown && owner == FirstIndexOf(ids, OwnerId(c, ByService))
    ensures (if owner == Some(k) then m.(containers := m.containers + [c]) else m)
         == b.(containers := b.containers + Nest(done + [c], ids, ByService, k))
  {
    NestSnoc(done, c, ids, ByService, k);
    assert NestsUnder(c, ids, ByService, k) <==> owner == Some(k);
  }

  /** Extending the nested lists leaves the ids, and hence every lookup, as they were. */
  lemma NodesExtendedIds(before: seq<Node>, after: seq<Node>, cs: seq<Container>)
    requires NodesExtended(before, after, cs)
    ensures NodeIds(after) == NodeIds(before)
  {
    assert forall j :: 0 <= j < |after| ==> NodeIds(after)[j] == after[j].id == before[j].id;
  }

  lemma ServicesExtendedIds(before: seq<Service>, after: seq<Service>, cs: seq<Container>)
    requires ServicesExtended(before, after, cs)
    ensures ServiceIds(after) == ServiceIds(before)
  {
    assert forall j :: 0 <= j < |after| ==> ServiceIds(after)[j] == after[j].id == before[j].id;
  }

  /**
   * The aggregate tree over the flat containers cs: every node's and every
   * service's nested list is exactly its Nest of cs.
   */
  ghost predicate NestedFrom(nodes: seq<Node>, services: seq<Service>, cs: seq<Container>) {
    && (forall k :: 0 <= k < |nodes| ==> nodes[k].containers == Nest(cs, NodeIds(nodes), ByNode, k))
    && (forall k :: 0 <= k < |services| ==> services[k].containers == Nest(cs, ServiceIds(services), ByService, k))
  }

  /**
   * Nesting into nodes and services that start with empty nested lists yields
   * the aggregate tree, and leaves everything but the nested lists as it was.
   */
  lemma NestedIntoEmpty(nodes: seq<Node>, nodes': seq<Node>, services: seq<Service>, services': seq<Service>, cs: seq<Container>)
    requires forall k :: 0 <= k < |nodes| ==> nodes[k].containers == []
    requires forall k :: 0 <= k < |services| ==> services[k].containers == []
    requires NodesExtended(nodes, nodes', cs) && ServicesExtended(services, services', cs)
    ensures NestedFrom(nodes', services', cs)
    ensures forall k :: 0 <= k < |nodes'| ==> nodes'[k].(containers := []) == nodes[k]
    ensures forall k :: 0 <= k < |services'| ==> services'[k].(containers := []) == services[k]
  {
    NodesExtendedIds(nodes, nodes', cs);
    ServicesExtendedIds(services, services', cs);
  }

  /**
   * Each container occurs in a nested list exactly as often as in the flat list
   * when it belongs there, and not at all otherwise.
   */
  lemma {:induction false} NestCount(cs: seq<Container>, ownerIds: seq<string>, rel: Relation, k: nat, c: Container)
    ensures multiset(Nest(cs, ownerIds, rel, k))[c] == if NestsUnder(c, ownerIds, rel, k) then multiset(cs)[c] else 0
  {
    if cs != [] {
      var init := cs[..|cs| - 1];
      NestCount(init, ownerIds, rel, k, c);
      assert cs == init + [cs[|cs| - 1]];
    }
  }

  /** A container is in a nested list exactly when it is in the flat list and belongs there. */
  lemma NestMembership(cs: seq<Container>, ownerIds: seq<string>, rel: Relation, k: nat, c: Container)
    ensures c in Nest(cs, ownerIds, rel, k) <==> c in cs && NestsUnder(c, ownerIds, rel, k)
  {
    NestCount(cs, ownerIds, rel, k, c);
  }

  /** Nesting keeps the flat order: the nested list of a concatenation is the concatenation of the nested lists. */
  lemma {:induction false} NestAppend(a: seq<Container>, b: seq<Container>, ownerIds: seq<string>, rel: Relation, k: nat)
    ensures Nest(a + b, ownerIds, rel, k) == Nest(a, ownerIds, rel, k) + Nest(b, ownerIds, rel, k)
    decreases |b|
  {
    if b == [] {
      assert a + b == a;
    } else {
      var init := b[..|b| - 1];
      NestAppend(a, init, ownerIds, rel, k);
      assert (a + b)[..|a + b| - 1] == a + init;
    }
  }

  /** No nested list holds a container whose desired state is "shutdown". */
  lemma NoShutdownNested(cs: seq<Container>, ownerIds: seq<string>, rel: Relation, k: nat)
    ensures forall c :: c in Nest(cs, ownerIds, rel, k) ==> c.desiredState != Shutdown
  {
    forall c | c in Nest(cs, ownerIds, rel, k) ensures c.desiredState != Shutdown {
      NestMembership(cs, ownerIds, rel, k, c);
    }
  }

  /** A container is nested under at most one owner per relation. */
  lemma NestedOnce(cs: seq<Container>, ownerIds: seq<string>, rel: Relation, k: nat, k': nat, c: Container)
    requires c in Nest(cs, ownerIds, rel, k) && c in Nest(cs, ownerIds, rel, k')
    ensures k == k'
  {
    NestMembership(cs, ownerIds, rel, k, c);
    NestMembership(cs, ownerIds, rel, k', c);
  }

  /**
   * A live container whose owner id resolves is nested under that owner,
   * whatever happens to its other relation.
   */
  lemma LiveContainerNested(cs: seq<Container>, ownerIds: seq<string>, rel: Relation, i: nat)
    requires i < |cs| && cs[i].desiredState != Shutdown && OwnerId(cs[i], rel) in ownerIds
    ensures FirstIndexOf(ownerIds, OwnerId(cs[i], rel)).Some?
    ensures cs[i] in Nest(cs, ownerIds, rel, FirstIndexOf(ownerIds, OwnerId(cs[i], rel)).value)
  {
    var k := FirstIndexOf(ownerIds, OwnerId(cs[i], rel)).value;
    NestMembership(cs, ownerIds, rel, k, cs[i]);
  }

  /** In an aggregate tree no node and no service holds a "shutdown" container. */
  lemma TreeHasNoShutdown(nodes: seq<Node>, services: seq<Service>, cs: seq<Container>)
    requires NestedFrom(nodes, services, cs)
    ensures forall k, c :: 0 <= k < |nodes| && c in nodes[k].containers ==> c.desiredState != Shutdown
    ensures forall k, c :: 0 <= k < |services| && c in services[k].containers ==> c.desiredState != Shutdown
  {
    forall k | 0 <= k < |nodes| {
      NoShutdownNested(cs, NodeIds(nodes), ByNode, k);
    }
    forall k | 0 <= k < |services| {
      NoShutdownNested(cs, ServiceIds(services), ByService, k);
    }
  }

  /**
   * In an aggregate tree a live container sits under the first node with its
   * NodeID when there is one, and under the first service with its ServiceID
   * when there is one; each relation holds or fails on its own.
   */
  lemma TreeHoldsLiveContainer(nodes: seq<Node>, services: seq<Service>, cs: seq<Container>, i: nat)
    requires NestedFrom(nodes, services, cs)
    requires i < |cs| && cs[i].desiredState != Shutdown
    ensures cs[i].nodeId in NodeIds(nodes) ==>
      var k := FirstIndexOf(NodeIds(nodes), cs[i].nodeId).value;
      k < |nodes| && nodes[k].id == cs[i].nodeId && cs[i] in nodes[k].containers
    ensures cs[i].serviceId in ServiceIds(services) ==>
      var k := FirstIndexOf(ServiceIds(services), cs[i].serviceId).value;
      k < |services| && services[k].id == cs[i].serviceId && cs[i] in services[k].containers
  {
    if cs[i].nodeId in NodeIds(nodes) {
      LiveContainerNested(cs, NodeIds(nodes), ByNode, i);
    }
    if cs[i].serviceId in ServiceIds(services) {
      LiveContainerNested(cs, ServiceIds(services), ByService, i);
    }
  }

  /** With no containers listed, every nested list is empty. */
  lemma EmptyTree(nodes: seq<Node>, services: seq<Service>)
    requires NestedFrom(nodes, services, [])
    ensures forall k :: 0 <= k < |nodes| ==> nodes[k].containers == []
    ensures forall k :: 0 <= k < |services| ==> services[k].containers == []
  {
  }

  /**
   * The aggregate tree is determined by the flat lists: two trees over the same
   * containers whose nodes and services agree outside their nested lists are equal.
   */
  lemma TreeDetermined(nodes: seq<Node>, services: seq<Service>, nodes': seq<Node>, services': seq<Service>, cs: seq<Container>)
    requires NestedFrom(nodes, services, cs) && NestedFrom(nodes', services', cs)
    requires |nodes| == |nodes'| && forall i :: 0 <= i < |nodes| ==> nodes[i].(containers := []) == nodes'[i].(containers := [])
    requires |services| == |services'| && forall i :: 0 <= i < |services| ==> services[i].(containers := []) == services'[i].(containers := [])
    ensures nodes == nodes' && services == services'
  {
    assert NodeIds(nodes) == NodeIds(nodes') by {
      assert forall i :: 0 <= i < |nodes| ==> nodes[i].id == nodes[i].(containers := []).id;
    }
    assert ServiceIds(services) == ServiceIds(services') by {
      assert forall i :: 0 <= i < |services| ==> services[i].id == services[i].(containers := []).id;
    }
    forall i | 0 <= i < |nodes| ensures nodes[i] == nodes'[i] {
      assert nodes[i] == nodes[i].(containers := []).(containers := nodes[i].containers);
      assert nodes'[i] == nodes'[i].(containers := []).(containers := nodes'[i].containers);
    }
    forall i | 0 <= i < |services| ensures services[i] == services'[i] {
      assert services[i] == services[i].(containers := []).(containers := services[i].containers);
      assert services'[i] == services'[i].(containers := []).(containers := services'[i].containers);
    }
  }

  /**
   * Three containers with the same owner, the first and last live: the owner's
   * nested list holds all three, or two when the middle one is "shutdown".
   */
  lemma ThreeOnOneOwner(cs: seq<Container>, id: string, rel: Relation)
    requires |cs| == 3 && forall i :: 0 <= i < 3 ==> OwnerId(cs[i], rel) == id
    requires cs[0].desiredState != Shutdown && cs[2].desiredState != Shutdown
    ensures |Nest(cs, [id], rel, 0)| == if cs[1].desiredState == Shutdown then 2 else 3
  {
    FirstIndexAt([id], id, 0);
    NestLengthSnoc(cs[..1], [id], rel, 0);
    assert |Nest(cs[..1], [id], rel, 0)| == 1 by {
      assert cs[..1][..0] == [];
    }
    NestLengthSnoc(cs[..2], [id], rel, 0);
    assert cs[..2][..1] == cs[..1];
    NestLengthSnoc(cs, [id], rel, 0);
    assert cs[..2] == cs[..|cs| - 1];
  }

  /** The nested list grows by one exactly when the last container scanned nests under the owner. */
  lemma NestLengthSnoc(cs: seq<Container>, ownerIds: seq<string>, rel: Relation, k: nat)
    requires |cs| > 0
    ensures |Nest(cs, ownerIds, rel, k)|
         == |Nest(cs[..|cs| - 1], ownerIds, rel, k)| + if NestsUnder(cs[|cs| - 1], ownerIds, rel, k) then 1 else 0
  {
  }

}
