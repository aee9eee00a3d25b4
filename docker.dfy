/**
 * The records the Docker client returns, reduced to the fields the snapshot reads.
 * The client itself is not modelled: each listing call is an input that either
 * failed or yielded its records in listing order.
 */
module Docker {
  import opened Wrappers

  /** A timestamp; only ever copied through, never inspected. */
  datatype Time = Time(unixNanos: int)

  /** swarm.Node: ID, Description.Hostname, Status.State, Status.Addr, CreatedAt. */
  datatype NodeInfo = NodeInfo(id: string, hostname: string, state: string, addr: string, createdAt: Time)

  /** One entry of a task's Spec.Networks; only its Aliases are read. */
  datatype NetworkAttachment = NetworkAttachment(aliases: seq<string>)

  /**
   * swarm.Task: Status.ContainerStatus.ContainerID, Spec.ContainerSpec.Image
   * (repository@digest), Status.Err, Status.State, DesiredState, ServiceID,
   * NodeID, Slot, Spec.Networks, CreatedAt.
   */
  datatype TaskInfo = TaskInfo(
    containerId: string,
    image: string,
    err: string,
    state: string,
    desiredState: string,
    serviceId: string,
    nodeId: string,
    slot: int,
    networks: seq<NetworkAttachment>,
    createdAt: Time)

  /** swarm.Service: ID, Spec.Name, Spec.Mode.Replicated.Replicas, CreatedAt. */
  datatype ServiceInfo = ServiceInfo(id: string, name: string, replicas: Option<nat>, createdAt: Time)

  /** The result of one NodeList, TaskList or ServiceList call. */
  datatype Listing<T> = Failed(error: string) | Listed(items: seq<T>)
}
