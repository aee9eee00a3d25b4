# swarm-info: the snapshot and aggregate tree, in Dafny

swarm-info polls a Docker swarm for its nodes, tasks and services, and publishes
two views of them. The flat `swarm` holds the nodes, the containers (one per
task) and the services. The aggregate `swarmAggregate` nests every container
whose desired state is not `"shutdown"` under its node and under its service.
This project models one refresh cycle of `updateSwarm` in `main.go`, the
`Swarm` lookups, and the HTML5 fallback skipper. It proves what a cycle
publishes and what it leaves alone.

Modules, one concern each:

- `Wrappers`: `Option`, which stands for a nil pointer or an absent field.
- `GoStrings`: the Go library functions the cycle relies on. These are
  `strings.Split` with a one-character separator, `strings.HasPrefix` and
  `strconv.Itoa`. `Split` and `Itoa` each have an independent inverse (`Join`,
  `ParseInt`) and a round-trip proof. `HasPrefix` is characterised as "the
  string is the prefix followed by some rest", and so is the skipper built on
  it.
- `Docker`: the gateway records (`NodeInfo`, `TaskInfo`, `ServiceInfo`). A
  listing call is the input `Listing<T> = Failed(error) | Listed(items)`.
- `Entities`: `Container`, `Node` and `Service`, and how each is built from the
  record it mirrors (`NodeOf`, `ServiceOf`, `ContainerOf`).
- `Aggregation`: the specification of the tree. `FirstIndexOf` is the
  first-match lookup. `Nest(cs, ids, rel, k)` is the nested list of owner `k`.
  The lemmas say what those lists hold.
- `SwarmInfo`: the imperative part. It has the `Swarm` class (arrays of nodes
  and services, a sequence of containers, the `Get…ByID` loops and the nesting
  loop), the builders, and the `State` class. `State` holds the two published
  swarms and does one cycle in `Update`.

Some source behaviour the model reproduces on purpose:

- `swarmAggregate.Nodes = swarm.Nodes` and the same assignment for `Services`
  share the backing array. In the model, `State.Valid` requires
  `aggregate.nodes == flat.nodes` and `aggregate.services == flat.services`:
  both swarms point at one Dafny `array`. The nesting loop appends through that
  shared array, so the flat view's nodes and services also carry the nested
  containers. A reader might expect the flat view's nested lists to stay empty.
  The code shares the arrays, so they do not, and the model follows the code.
  `State.Update` ensures `AggregateView() == FlatView().(containers := [])`.
- The code indexes `imageParts[1]` and `Networks[0].Aliases[0]` without
  checks, so a malformed image reference or an empty alias list makes the
  goroutine panic. The model returns the outcome `Crashed` for such a task, and
  neither swarm changes.
- The order of the checks is the code's: node listing, task listing, task
  mapping, then service listing. For example, a bad task combined with a failed
  service listing gives `Crashed`.
- A Go nil slice in the struct fields `Node.Containers`, `Service.Containers`
  and the aggregate's `Containers` is modelled as the empty sequence. Those
  fields are tagged `omitempty`, so the JSON encoding omits both nil and empty
  slices and a reader cannot tell them apart.

## Model

| member | source | states |
|---|---|---|
| `SwarmInfo.Swarm.constructor` | main.go:95-96 | A new swarm has no nodes, services or containers. |
| `SwarmInfo.Swarm.GetNodeByID` | main.go:60-69 | Returns the index of the first node whose ID equals the argument. Returns None exactly when no node has that ID. Changes nothing. |
| `SwarmInfo.Swarm.GetServiceByID` | main.go:72-81 | The same first-match lookup over the services. |
| `SwarmInfo.Swarm.GetContainerByID` | main.go:84-93 | The same first-match lookup over the top-level containers. |
| `SwarmInfo.Swarm.NestContainers` | main.go:170-184 | Each node gets its old nested list followed by its `Nest` of the containers, and likewise each service. Nothing else about a node or service changes. Ids are resolved against the ids before the loop. |
| `SwarmInfo.Swarm.SkipShutdown` | main.go:171-173 | A "shutdown" container leaves every nested list as it was. |
| `SwarmInfo.Swarm.NestUnderNode` | main.go:175-178 | Appending through the node lookup extends the node nesting by exactly this container. |
| `SwarmInfo.Swarm.NestUnderService` | main.go:180-183 | The same for the service lookup. |
| `SwarmInfo.BuildNodes` | main.go:105-116 | One node per listed node, in listing order. Scalar fields are copied, Manager is false and there are no nested containers. |
| `SwarmInfo.BuildContainers` | main.go:124-141 | Succeeds exactly when every task can be mapped. It then yields one container per task, in listing order, with no filtering by state. |
| `SwarmInfo.BuildServices` | main.go:149-159 | One service per listed service, in order. Replicas is copied through and there are no nested containers. |
| `SwarmInfo.State.constructor` | main.go:200-202 | Both swarms start empty, with shared node and service arrays and the invariant in place. |
| `SwarmInfo.State.Update` | main.go:98-186 | If a listing fails or a task cannot be mapped, both swarms are unchanged. Otherwise the nodes, containers and services match the listings one-to-one, in order. The node and service arrays are shared. Each nested list is its `Nest`. The aggregate has no top-level containers. The previous generation's arrays are never written. |
| `SwarmInfo.State.Publish` | main.go:161-186 | Fresh node and service arrays replace the old ones, which are not written. Both swarms share them. The records match the built ones except for the nested lists, and each nested list is its `Nest`. The flat swarm gets the containers, the aggregate gets none. |
| `SwarmInfo.RefreshTwice` | main.go:161-186 | Two cycles over the same listings publish the same generation. The aggregate view equals the flat view without top-level containers. |
| `SwarmInfo.ThreeReplicasScenario` | main.go:98-186 | One node, one service and three of its tasks on that node, for any ids and any image with a digest: 3 flat containers, with 3 nested under the node and 3 under the service. When one task is to be shut down, 2 are nested under each. |
| `SwarmInfo.ScenarioContainers` | main.go:134-137 | Each container of the scenario has the node id, service id and desired state of its task. |
| `SwarmInfo.ScenarioTree` | main.go:170-184 | In a tree with one node and one service that own three containers, each owner holds 3 of them, or 2 when the middle one is "shutdown". |
| `SwarmInfo.NoHtml5IfApiCallSkipper` | main.go:192-198 | The skipper holds exactly for paths that are "/api/" or "/node_modules/" followed by anything. |
| `SwarmInfo.CycleOutcome` | main.go:99-147 | A cycle publishes exactly when all three listings succeed and every task can be mapped. A failed node listing is reported exactly when the node listing fails, whatever the others give. A failed task listing is reported exactly when the node listing succeeded and the task listing failed. A crash happens exactly when both earlier listings succeeded and some task cannot be mapped, whatever the service listing gives. A failed service listing is reported exactly when everything before it succeeded. |
| `GoStrings.HasPrefix` | main.go:193-196 | Holds exactly when the string is the prefix followed by some rest. |
| `GoStrings.Split` | main.go:126 | At least one piece. No piece contains the separator. Joining the pieces gives back the string. There is exactly one piece when the separator is absent. |
| `GoStrings.DecimalDigits` | main.go:129 | Non-empty, only decimal digits, and no leading zero except for 0 itself. |
| `GoStrings.Itoa` | main.go:129 | Non-empty and free of '.'. |
| `GoStrings.ItoaRoundTrip` | main.go:129 | Parsing the result of Itoa gives back the number, for negative numbers too. |
| `Entities.NodeOf` | main.go:107-114 | The node keeps the id, hostname, state, address and creation time of its listing record, so nothing of the record is lost. Manager is false and there are no nested containers. |
| `Entities.ServiceOf` | main.go:151-156 | The service keeps the id, name, replica count and creation time of its listing record. It has no nested containers. |
| `Entities.ContainerOf` | main.go:125-139 | A container exists exactly when the task has a network with an alias and its image contains '@'. Otherwise the source panics. Name is the first alias, ".", then the decimal slot. Image and ImageHash are the first two '@'-separated pieces. The other fields are copied verbatim. |
| `Entities.ImageSplitUnique` | main.go:126-131 | The text before the first '@' and the text between the first and the second '@' are fully determined by the image string. |
| `Entities.NameEncodesSlot` | main.go:129 | The container name starts with the alias and '.', and the rest parses back to the slot. |
| `Entities.DigestExample` | main.go:126-131 | "nginx@sha256:abcd" gives Image "nginx" and ImageHash "sha256:abcd". |
| `Entities.NoDigestExample` | main.go:126-131 | "nginx", which has no '@', yields no container. |
| `Aggregation.FirstIndexOf` | main.go:60-93 | The first position holding the id, with no earlier match, or None exactly when the id is absent. |
| `Aggregation.Nest` | main.go:170-184 | An owner's nested list is no longer than the flat list, and every container in it is live and resolves to that owner. |
| `Aggregation.NestSnoc` | main.go:170-184 | Scanning one more container appends it to the list of the owner it belongs to, and to no other. |
| `Aggregation.NestCount` | main.go:170-184 | A container appears in a nested list as many times as in the flat list when it belongs there, and never otherwise. |
| `Aggregation.NestMembership` | main.go:170-184 | A container is in a nested list iff it is in the flat list, is not "shutdown", and its owner id resolves to that owner. |
| `Aggregation.NestAppend` | main.go:170-184 | Nesting keeps flat order: the nesting of a concatenation is the concatenation of the nestings. |
| `Aggregation.NoShutdownNested` | main.go:170-173 | No nested list holds a "shutdown" container. |
| `Aggregation.NestedOnce` | main.go:175-183 | Within one relation, a container is nested under at most one owner. |
| `Aggregation.LiveContainerNested` | main.go:175-183 | A live container whose owner id is listed is nested under the first owner with that id. |
| `Aggregation.NodesStep` | main.go:175-178 | One append through the node lookup extends the node nesting by one container. |
| `Aggregation.ServicesStep` | main.go:180-183 | The same for services. |
| `Aggregation.NodeStepAt` | main.go:175-178 | For one node, appending the container exactly when the lookup lands on that node gives its nesting over one more container. |
| `Aggregation.ServiceStepAt` | main.go:180-183 | The same for one service. |
| `Aggregation.NestedIntoEmpty` | main.go:161-184 | Nesting into nodes and services with empty nested lists yields the tree of the containers. Every other field of each node and service is unchanged. |
| `Aggregation.TreeHasNoShutdown` | main.go:170-184 | In a published tree, no node and no service holds a "shutdown" container. |
| `Aggregation.TreeHoldsLiveContainer` | main.go:175-183 | In a published tree, a live container sits under its node when the node is listed, and under its service when the service is listed. Each relation holds or fails independently. |
| `Aggregation.EmptyTree` | main.go:170-184 | With no containers, every nested list is empty. |
| `Aggregation.TreeDetermined` | main.go:161-184 | The tree is determined by the flat lists, so rebuilding it from the same input gives the same tree. |
| `Aggregation.ThreeOnOneOwner` | main.go:170-184 | Three containers of one owner nest as 3, or as 2 when the middle one is "shutdown". |

## Left out

- The Docker client calls `NodeList`, `TaskList` and `ServiceList`. They are foreign I/O, so each is an input that either failed or listed its records. Logging the error is not modelled.
- `ContainerLogs` and `ServiceLogs` and their handlers are not modelled. They forward a gateway stream and hold no logic of their own.
- The handlers encode `swarm.Nodes`, `swarm.Containers` and `swarm.Services` as bare slices, without `omitempty`. Before the first published cycle these are nil and encode as `null`. After a cycle over empty listings they are empty and encode as `[]`. The model does not tell nil from empty, so `State.constructor` and such a cycle give equal views.
- `time.Sleep` and the self-recursive call at the end of `updateSwarm` are left out: the model covers one cycle only.
- After a `ListingFailed` outcome the refresh goroutine returns without rescheduling itself, so no further cycle runs. The early returns at main.go:102, 121 and 146 skip `time.Sleep` and the recursive `updateSwarm` call at main.go:188-189, and the last published generation is served from then on. The model covers one cycle and does not model this end of refreshing.
- After a `Crashed` outcome the real process exits, because the panic in the goroutine is not recovered. The model only says that nothing was published.
- The goroutine, and the handlers that read `swarm` and `swarmAggregate` without synchronisation, are concurrency. The model does not say what a reader sees in the middle of a cycle. The code assigns the fields one by one, not as one atomic publish.
- The echo server, the gzip and static middleware, route listing, and the JSON encoding are HTTP plumbing and are not modelled.
- The source's `noHTML5IfAPICallSkipper` receives `echo.Context.Path()`. The model takes that path as a string.
- The `time.Time` fields are an opaque `Time` value that is only copied through.
- `Manager` is never assigned (its line is commented out), so `NodeOf` always sets it to false.
- `BuildServices` reads `Spec.Mode.Replicated.Replicas` as an optional value copied through. The source dereferences `Replicated`, which is nil for a global-mode service. That panic is not modelled.
- `Slot` is an unbounded integer. Go's `int` is 64 bits wide, and the decimal text is the same for every value a task slot can take.
- Each builder produces a sequence, and `State.Publish` then allocates the node and service arrays from it. Go's growth of a slice by `append` is not modelled, because only the final backing array can be observed.
- client/graph.js, the browser view, is not part of this model.
