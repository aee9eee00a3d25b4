/**
 * The swarm snapshot of main.go: the Swarm struct with its by-id lookups, and
 * one cycle of the refresh loop over the two published swarms (the flat one
 * and the aggregate one).
 */
module SwarmInfo {
  import opened Wrappers
  import opened GoStrings
  import opened Docker
  import opened Entities
  import opened Aggregation

  /**
   * A Swarm value. Nodes and Services are slices whose backing arrays can be
   * shared with another Swarm; Containers is never updated element-wise, so it
   * is a sequence (a nil slice is the empty sequence).
   */
  class Swarm {
    var nodes: array<Node>
    var services: array<Service>
    var containers: seq<Container>

    /** Swarm{}: nothing listed yet. */
    constructor ()
      ensures nodes.Length == 0 && services.Length == 0 && containers == []
    {
      nodes := new Node[0];
      services := new Service[0];
      containers := [];
    }

    /** The position of the first node with this id (the pointer &Nodes[index]), or None (nil). */
    method GetNodeByID(id: string) returns (node: Option<nat>)
      ensures node == FirstIndexOf(NodeIds(nodes[..]), id)
    {
      var index := 0;
      while index < nodes.Length
        invariant 0 <= index <= nodes.Length
        invariant forall j :: 0 <= j < index ==> nodes[j].id != id
      {
        if nodes[index].id == id {
          FirstIndexAt(NodeIds(nodes[..]), id, index);
          return Some(index);
        }
        index := index + 1;
      }
      return None;
    }

    /** The position of the first service with this id, or None. */
    method GetServiceByID(id: string) returns (service: Option<nat>)
      ensures service == FirstIndexOf(ServiceIds(services[..]), id)
    {
      var index := 0;
      while index < services.Length
        invariant 0 <= index <= services.Length
        invariant forall j :: 0 <= j < index ==> services[j].id != id
      {
        if services[index].id == id {
          FirstIndexAt(ServiceIds(services[..]), id, index);
          return Some(index);
        }
        index := index + 1;
      }
      return None;
    }

    /** The position of the first container with this id, or None. */
    method GetContainerByID(id: string) returns (container: Option<nat>)
      ensures container == FirstIndexOf(ContainerIds(containers), id)
    {
      var index := 0;
      while index < |containers|
        invariant 0 <= index <= |containers|
        invariant forall j :: 0 <= j < index ==> containers[j].id != id
      {
        if containers[index].id == id {
          FirstIndexAt(ContainerIds(containers), id, index);
          return Some(index);
        }
        index := index + 1;
      }
      return None;
    }

    /**
     * The nesting pass: every container that is not "shutdown" is appended to
     * the nested list of the node and of the service it resolves to, in place
     * in the node and service arrays.
     */
    method NestContainers()
      modifies nodes, services
      ensures NodesExtended(old(nodes[..]), nodes[..], containers)
      ensures ServicesExtended(old(services[..]), services[..], containers)
    {
      ghost var nodesBefore := nodes[..];
      ghost var servicesBefore := services[..];
      for i := 0 to |containers|
        invariant NodesExtended(nodesBefore, nodes[..], containers[..i])
        invariant ServicesExtended(servicesBefore, services[..], containers[..i])
      {
        var container := containers[i];
        assert containers[..i + 1] == containers[..i] + [container];
        if container.desiredState == Shutdown {
          SkipShutdown(nodesBefore, servicesBefore, containers[..i], container);
          continue;
        }
        NestUnderNode(container, nodesBefore, containers[..i]);
        NestUnderService(container, servicesBefore, containers[..i]);
      }
      assert containers[..|containers|] == containers;
    }

    /** A "shutdown" container changes no nested list. */
    lemma SkipShutdown(nodesBefore: seq<Node>, servicesBefore: seq<Service>, done: seq<Container>, c: Container)
      requires c.desiredState == Shutdown
      requires NodesExtended(nodesBefore, nodes[..], done)
      requires ServicesExtended(servicesBefore, services[..], done)
      ensures NodesExtended(nodesBefore, nodes[..], done + [c])
      ensures ServicesExtended(servicesBefore, services[..], done + [c])
    {
      forall k | 0 <= k < nodes.Length
        ensures Nest(done + [c], NodeIds(nodesBefore), ByNode, k) == Nest(done, NodeIds(nodesBefore), ByNode, k)
      {
        NestSnoc(done, c, NodeIds(nodesBefore), ByNode, k);
      }
      forall k | 0 <= k < services.Length
        ensures Nest(done + [c], ServiceIds(servicesBefore), ByService, k) == Nest(done, ServiceIds(servicesBefore), ByService, k)
      {
        NestSnoc(done, c, ServiceIds(servicesBefore), ByService, k);
      }
    }

    /** Appends c to the nested list of the node its NodeID resolves to, if any. */
    method NestUnderNode(c: Container, ghost nodesBefore: seq<Node>, ghost done: seq<Container>)
      requires c.desiredState != Shutdown
      requires NodesExtended(nodesBefore, nodes[..], done)
      modifies nodes
      ensures NodesExtended(nodesBefore, nodes[..], done + [c])
    {
      NodesExtendedIds(nodesBefore, nodes[..], done);
      ghost var mid := nodes[..];
      var node := GetNodeByID(c.nodeId);
      NodesStep(nodesBefore, mid, c, done, node);
      if node.Some? {
        nodes[node.value] := nodes[node.value].(containers := nodes[node.value].containers + [c]);
      }
    }

    /** Appends c to the nested list of the service its ServiceID resolves to, if any. */
    method NestUnderService(c: Container, ghost servicesBefore: seq<Service>, ghost done: seq<Container>)
      requires c.desiredState != Shutdown
      requires ServicesExtended(servicesBefore, services[..], done)
      modifies services
      ensures ServicesExtended(servicesBefore, services[..], done + [c])
    {
      ServicesExtendedIds(servicesBefore, services[..], done);
      ghost var mid := services[..];
      var service := GetServiceByID(c.serviceId);
      ServicesStep(servicesBefore, mid, c, done, service);
      if service.Some? {
        services[service.value] := services[service.value].(containers := services[service.value].containers + [c]);
      }
    }
  }

  /** The nodes of one listing, one per record, in listing order. */
  method BuildNodes(nodeList: seq<NodeInfo>) returns (newNodes: seq<Node>)
    ensures |newNodes| == |nodeList|
    ensures forall i :: 0 <= i < |nodeList| ==> newNodes[i] == NodeOf(nodeList[i])
  {
    newNodes := [];
    for i := 0 to |nodeList|
      invariant |newNodes| == i
      invariant forall j :: 0 <= j < i ==> newNodes[j] == NodeOf(nodeList[j])
    {
      newNodes := newNodes + [NodeOf(nodeList[i])];
    }
  }

  /**
   * The containers of one task listing, one per task whatever its state, in
   * listing order; ok is false when some task makes the source panic.
   */
  method BuildContainers(taskList: seq<TaskInfo>) returns (ok: bool, newContainers: seq<Container>)
    ensures ok <==> forall i :: 0 <= i < |taskList| ==> Convertible(taskList[i])
    ensures ok ==> |newContainers| == |taskList|
    ensures ok ==> forall i :: 0 <= i < |taskList| ==> ContainerOf(taskList[i]) == Some(newContainers[i])
  {
    newContainers := [];
    for i := 0 to |taskList|
      invariant |newContainers| == i
      invariant forall j :: 0 <= j < i ==> ContainerOf(taskList[j]) == Some(newContainers[j])
    {
      var container := ContainerOf(taskList[i]);
      if container.None? {
        return false, newContainers;
      }
      newContainers := newContainers + [container.value];
    }
    return true, newContainers;
  }

  /** The services of one listing, one per record, in listing order. */
  method BuildServices(serviceList: seq<ServiceInfo>) returns (newServices: seq<Service>)
    ensures |newServices| == |serviceList|
    ensures forall i :: 0 <= i < |serviceList| ==> newServices[i] == ServiceOf(serviceList[i])
  {
    newServices := [];
    for i := 0 to |serviceList|
      invariant |newServices| == i
      invariant forall j :: 0 <= j < i ==> newServices[j] == ServiceOf(serviceList[j])
    {
      newServices := newServices + [ServiceOf(serviceList[i])];
    }
  }

  datatype ListingKind = NodeListing | TaskListing | ServiceListing

  /** How one refresh cycle ends. */
  datatype Outcome =
    | Published                          // both swarms replaced
    | ListingFailed(listing: ListingKind) // the error is logged and the cycle returns early
    | Crashed                            // index out of range while mapping a task

  /** The outcome the source reaches, in the order it checks: nodes, tasks, task mapping, services. */
  ghost function CycleOutcome(nodeList: Listing<NodeInfo>, taskList: Listing<TaskInfo>, serviceList: Listing<ServiceInfo>)
    : (r: Outcome)
    ensures r == Published <==>
      nodeList.Listed? && taskList.Listed? && serviceList.Listed?
      && forall i :: 0 <= i < |taskList.items| ==> Convertible(taskList.items[i])
    ensures r == ListingFailed(NodeListing) <==> nodeList.Failed?
    ensures r == ListingFailed(TaskListing) <==> nodeList.Listed? && taskList.Failed?
    ensures r == Crashed <==>
      nodeList.Listed? && taskList.Listed? && exists i :: 0 <= i < |taskList.items| && !Convertible(taskList.items[i])
    ensures r == ListingFailed(ServiceListing) <==>
      nodeList.Listed? && taskList.Listed? && serviceList.Failed?
      && forall i :: 0 <= i < |taskList.items| ==> Convertible(taskList.items[i])
  {
    if nodeList.Failed? then ListingFailed(NodeListing)
    else if taskList.Failed? then ListingFailed(TaskListing)
    else if !forall i :: 0 <= i < |taskList.items| ==> Convertible(taskList.items[i]) then Crashed
    else if serviceList.Failed? then ListingFailed(ServiceListing)
    else Published
  }

  /** What a reader of one published swarm sees: its nodes, services and top-level containers. */
  datatype Generation = Generation(nodes: seq<Node>, services: seq<Service>, containers: seq<Container>)

  /** The two published swarms: the flat snapshot and the aggregate tree. */
  class State {
    const flat: Swarm
    const aggregate: Swarm

    /**
     * The two swarms share their node and service arrays; the aggregate has no
     * top-level containers; and the shared nodes and services carry the
     * aggregate tree over the flat containers.
     */
    ghost predicate Valid()
      reads flat, aggregate, flat.nodes, flat.services
    {
      && flat != aggregate
      && aggregate.nodes == flat.nodes
      && aggregate.services == flat.services
      && aggregate.containers == []
      && NestedFrom(flat.nodes[..], flat.services[..], flat.containers)
    }

    /** What the /api/node/, /api/service/ and /api/container/ handlers serialise. */
    function FlatView(): Generation
      reads flat, flat.nodes, flat.services
    {
      Generation(flat.nodes[..], flat.services[..], flat.containers)
    }

    /** What the /api/aggregate/ handler serialises. */
    function AggregateView(): Generation
      reads aggregate, aggregate.nodes, aggregate.services
    {
      Generation(aggregate.nodes[..], aggregate.services[..], aggregate.containers)
    }

    /** swarm = Swarm{} and swarmAggregate = Swarm{}. */
    constructor ()
      ensures Valid()
      ensures fresh(flat) && fresh(aggregate)
      ensures flat.nodes.Length == 0 && flat.services.Length == 0 && flat.containers == []
    {
      var f := new Swarm();
      var a := new Swarm();
      a.nodes, a.services := f.nodes, f.services;
      flat, aggregate := f, a;
    }

    /**
     * One refresh cycle over the three listings. When a listing fails, or a task
     * cannot be mapped, neither swarm changes. Otherwise both swarms are given
     * fresh arrays built in listing order, the aggregate tree is nested into
     * those shared arrays, and the arrays of the previous generation are left
     * as they were.
     */
    method Update(nodeList: Listing<NodeInfo>, taskList: Listing<TaskInfo>, serviceList: Listing<ServiceInfo>)
      returns (outcome: Outcome)
      requires Valid()
      modifies flat, aggregate
      ensures Valid()
      ensures AggregateView() == FlatView().(containers := [])
      ensures outcome == CycleOutcome(nodeList, taskList, serviceList)
      ensures unchanged(old(flat.nodes), old(flat.services))
      ensures outcome != Published ==> unchanged(flat, aggregate)
      ensures outcome == Published ==>
        && fresh(flat.nodes) && fresh(flat.services)
        && flat.nodes.Length == |nodeList.items|
        && (forall i :: 0 <= i < |nodeList.items| ==> flat.nodes[i].(containers := []) == NodeOf(nodeList.items[i]))
        && |flat.containers| == |taskList.items|
        && (forall i :: 0 <= i < |taskList.items| ==> ContainerOf(taskList.items[i]) == Some(flat.containers[i]))
        && flat.services.Length == |serviceList.items|
        && (forall i :: 0 <= i < |serviceList.items| ==> flat.services[i].(containers := []) == ServiceOf(serviceList.items[i]))
    {
      if nodeList.Failed? {
        return ListingFailed(NodeListing);
      }
      var newNodes := BuildNodes(nodeList.items);

      if taskList.Failed? {
        return ListingFailed(TaskListing);
      }
      var ok, newContainers := BuildContainers(taskList.items);
      if !ok {
        return Crashed;
      }

      if serviceList.Failed? {
        return ListingFailed(ServiceListing);
      }
      var newServices := BuildServices(serviceList.items);

      Publish(newNodes, newContainers, newServices);
      return Published;
    }

    /**
     * The end of a successful cycle: both swarms get the new lists, sharing
     * fresh node and service arrays; the aggregate tree is nested into those
     * arrays; and the aggregate's top-level containers are cleared.
     */
    method Publish(newNodes: seq<Node>, newContainers: seq<Container>, newServices: seq<Service>)
      requires Valid()
      requires forall k :: 0 <= k < |newNodes| ==> newNodes[k].containers == []
      requires forall k :: 0 <= k < |newServices| ==> newServices[k].containers == []
      modifies flat, aggregate
      ensures Valid()
      ensures unchanged(old(flat.nodes), old(flat.services))
      ensures fresh(flat.nodes) && fresh(flat.services)
      ensures flat.nodes.Length == |newNodes|
      ensures forall k :: 0 <= k < |newNodes| ==> flat.nodes[k].(containers := []) == newNodes[k]
      ensures flat.containers == newContainers
      ensures flat.services.Length == |newServices|
      ensures forall k :: 0 <= k < |newServices| ==> flat.services[k].(containers := []) == newServices[k]
    {
      var nodes := new Node[|newNodes|](i requires 0 <= i < |newNodes| => newNodes[i]);
      var services := new Service[|newServices|](i requires 0 <= i < |newServices| => newServices[i]);
      assert nodes[..] == newNodes;
      assert services[..] == newServices;

      flat.nodes := nodes;
      flat.containers := newContainers;
      flat.services := services;

      aggregate.containers := flat.containers;
      aggregate.nodes := flat.nodes;
      aggregate.services := flat.services;

      aggregate.NestContainers();
      NestedIntoEmpty(newNodes, flat.nodes[..], newServices, flat.services[..], flat.containers);

      aggregate.containers := [];
    }
  }

  /**
   * The skipper of the HTML5 static fallback: API and node_modules paths are
   * not rewritten. A path is skipped exactly when it is "/api/" or
   * "/node_modules/" followed by anything.
   */
  function NoHtml5IfApiCallSkipper(path: string): (skip: bool)
    ensures skip <==> exists rest :: path == "/api/" + rest || path == "/node_modules/" + rest
  {
    HasPrefix(path, "/api/") || HasPrefix(path, "/node_modules/")
  }

  /**
   * Refreshing twice from the same listings publishes the same generation
   * twice, in both views: the snapshot depends on nothing but the listings.
   */
  method RefreshTwice(st: State, nodeList: Listing<NodeInfo>, taskList: Listing<TaskInfo>, serviceList: Listing<ServiceInfo>)
    returns (first: Generation, second: Generation)
    requires st.Valid()
    requires CycleOutcome(nodeList, taskList, serviceList) == Published
    modifies st.flat, st.aggregate
    ensures first == second
    ensures st.FlatView() == second && st.AggregateView() == second.(containers := [])
  {
    var outcome := st.Update(nodeList, taskList, serviceList);
    first := st.FlatView();
    outcome := st.Update(nodeList, taskList, serviceList);
    second := st.FlatView();
    assert second.containers == first.containers by {
      assert forall i :: 0 <= i < |taskList.items| ==> Some(second.containers[i]) == Some(first.containers[i]);
    }
    TreeDetermined(first.nodes, first.services, second.nodes, second.services, first.containers);
  }

  /**
   * One node, one replicated service and three of its tasks on that node: all
   * three are nested under the node and under the service while running; when
   * one of them is to be shut down, two remain nested and the flat list still
   * has three.
   */
  method ThreeReplicasScenario(image: string, nodeId: string, serviceId: string, shutdownOne: bool)
    returns (flatContainers: nat, underNode: nat, underService: nat)
    requires DigestSeparator in image
    ensures flatContainers == 3
    ensures underNode == underService == if shutdownOne then 2 else 3
  {
    var t0 := Time(0);
    var net := [NetworkAttachment(["web"])];
    var running := "running";
    var second := if shutdownOne then Shutdown else running;
    var tasks := [
      TaskInfo("c1", image, "", running, running, serviceId, nodeId, 1, net, t0),
      TaskInfo("c2", image, "", running, second, serviceId, nodeId, 2, net, t0),
      TaskInfo("c3", image, "", running, running, serviceId, nodeId, 3, net, t0)];
    assert Convertible(tasks[0]) && Convertible(tasks[1]) && Convertible(tasks[2]);

    var st := new State();
    var outcome := st.Update(Listed([NodeInfo(nodeId, "host-1", "ready", "10.0.0.1", t0)]), Listed(tasks),
                             Listed([ServiceInfo(serviceId, "web", Some(3), t0)]));
    assert outcome == Published;
    ScenarioContainers(tasks, st.flat.containers, nodeId, serviceId, running, second);
    ScenarioTree(st.flat.nodes[..], st.flat.services[..], st.flat.containers, nodeId, serviceId, running, second);
    flatContainers := |st.flat.containers|;
    underNode := |st.aggregate.nodes[0].containers|;
    underService := |st.aggregate.services[0].containers|;
  }

  /** The containers of the scenario keep the owners and desired states of their tasks. */
  lemma ScenarioContainers(tasks: seq<TaskInfo>, cs: seq<Container>, nodeId: string, serviceId: string,
                           running: string, second: string)
    requires |tasks| == |cs| == 3 && forall i :: 0 <= i < 3 ==> ContainerOf(tasks[i]) == Some(cs[i])
    requires tasks[0].nodeId == tasks[1].nodeId == tasks[2].nodeId == nodeId
    requires tasks[0].serviceId == tasks[1].serviceId == tasks[2].serviceId == serviceId
    requires tasks[0].desiredState == running && tasks[1].desiredState == second
    requires tasks[2].desiredState == running
    ensures cs[0].nodeId == cs[1].nodeId == cs[2].nodeId == nodeId
    ensures cs[0].serviceId == cs[1].serviceId == cs[2].serviceId == serviceId
    ensures cs[0].desiredState == running && cs[1].desiredState == second && cs[2].desiredState == running
  {
    OwnersCopied(tasks[0], cs[0]);
    OwnersCopied(tasks[1], cs[1]);
    OwnersCopied(tasks[2], cs[2]);
  }

  /** The tree of the scenario: one node, one service, three containers owned by both. */
  lemma ScenarioTree(nodes: seq<Node>, services: seq<Service>, cs: seq<Container>,
                     nodeId: string, serviceId: string, running: string, second: string)
    requires NestedFrom(nodes, services, cs)
    requires |nodes| == 1 && nodes[0].id == nodeId && |services| == 1 && services[0].id == serviceId
    requires |cs| == 3
    requires cs[0].nodeId == cs[1].nodeId == cs[2].nodeId == nodeId
    requires cs[0].serviceId == cs[1].serviceId == cs[2].serviceId == serviceId
    requires running != Shutdown
    requires cs[0].desiredState == running && cs[1].desiredState == second && cs[2].desiredState == running
    ensures |nodes[0].containers| == |services[0].containers| == if second == Shutdown then 2 else 3
  {
    assert NodeIds(nodes) == [nodeId];
    assert ServiceIds(services) == [serviceId];
    ThreeOnOneOwner(cs, nodeId, ByNode);
    ThreeOnOneOwner(cs, serviceId, ByService);
  }
}
