# Qubit: a verified model of the dependency graph

Qubit draws a live service-dependency graph of a Kubernetes cluster. Kernel
probes report HTTP calls between IP addresses, pod messages say which service an
address belongs to, and both arrive in any order. The core keeps one in-memory
graph, renames nodes when late identities arrive ("healing"), serves the graph
over HTTP and flushes it to a table; the web UI rebuilds it, layers it and lays
it out on rings.

This project models that pipeline in Dafny, from the captured bytes to the drawn
nodes, and proves what it promises for every input, every run and every schedule.

## How it is organised

| part | modules |
|---|---|
| multisets, reachability, lists | `Bags`, `Paths`, `Lists` |
| the graph, its invariant, healing, the subgraph view | `Graph`, `Healing`, `Subgraph`, `Topology` |
| ingestion as a transition system of interleaved tasks | `Ingestion`, `Events`, `ExactlyOnce`, `ArrivalOrder`, `Interleaving`, `Serial`, `Schedules`, `Races`, `Collisions`, `Resync`, `Replay` |
| the server object, its handlers, whole service-pod maps | `Server`, `PodMap` |
| response and web UI | `Response`, `UiTopology`, `UiRoot`, `UiLayers`, `UiTransform`, `UiLayout`, `UiDrawing`, `UiNeighbours` |
| parsers and printers | `Hosts`, `Utf8`, `Http`, `Envoy`, `EnvoyPrint`, `Json` |
| selector matching and persistence | `Registry`, `Flush` |

Objects that the program updates in place are classes (`Topology.Topology`,
`Server.CoreServer`, `Registry.ServiceRegistry`, `Flush.EventTable`); each of
their methods is proved equal to a function on values, and the theorems are about
those functions. The concurrent server is `Ingestion`: every cache read, claim of
an edge key and graph update of a task is one atomic step (`Ingestion.Apply`), a
run is any finite sequence of steps, and disabled steps change nothing, so
"for every `steps`" means every interleaving. `Ingestion.EventTaskAtomic` and
`Ingestion.PodTaskAtomic` tie the uninterrupted schedule of a task to the function
the server object's methods are proved against.

The main results, in short:

- The two indexes mirror each other with multiplicity after every run
  (`Ingestion.RunSound`); healing is a homomorphism on the multiset of flows that
  conserves their number (`Healing.HealedFlows`), and heals commute.
- Edge deduplication is exactly-once under every interleaving
  (`ExactlyOnce.RunConsistent`).
- Whether pods are identified before or after the traffic that reaches them does
  not matter: the dependency relation is exact after every uninterrupted run
  (`Serial.SerialExact`, `Serial.OrderIndependent`) if and only if namespace and
  service name fix the application (`Serial.ExactIffDetermined`). Under every
  interleaving nothing is invented (`Interleaving.RunInvents`), and exactly the
  counted calls are depicted, raw addresses of identified pods looked through, if
  and only if service names also fix their nodes across namespaces
  (`Races.DepictsIffFaithful`).
- Sources never appear as raw addresses (`Races.SourcesIdentified`). Destinations
  do, and the graph itself is exact exactly for the schedules that heal each
  identified address after the last step that recorded it raw
  (`Interleaving.ExactIffScheduled`); one resync makes it exact after any schedule
  (`Races.ResyncSettles`).
- The subgraph search is exact, saturates, and its tree is a shortest-path
  spanning tree; the UI's queue search computes the same distances, and the
  layout draws every node exactly once, on rings at least 300 apart, each the
  smallest that its bounds allow.
- What one operation does is stated from its input alone, beside the functions it
  is proved equal to: an event from its request, the routes and the pods
  (`Events.EventRecorded`), a service-pod map from its entries (`PodMap.MapResolves`),
  a flush from the columns of the stored rows (`Flush.WrittenIffNew`), a lookup and
  the bulk map from selectors and labels (`Registry.BulkEntriesExact`), an Envoy
  configuration from what was written into it (`EnvoyPrint.PrintedRoutes`), a
  captured request from its bytes (`Http.HostExact`).

## Where the code does not keep what one would expect

Each of these is stated as a lemma, beside the exact condition under which it
does not happen.

- Healing into an existing node can list the same flow twice
  (`Healing.MergeDuplicates`); `Healing.HealedNoDuplicates` says exactly when.
- Such a merge also drops the Kubernetes events of the raw node
  (`Healing.HealedData`).
- Edge keys are built from service names while nodes carry application names.
  Two applications behind one service, two callers of one service name or of
  none, and two routed hosts behind one proxy pod lose a dependency
  (`Collisions.SharedServiceDrops`, `Collisions.SharedCallerDrops`,
  `Collisions.SharedProxyDrops`). `Collisions.MissingIffSameKey` is the condition
  for two events, `Serial.ExactIffDetermined` the one for all runs.
- A pod identified between two steps of an event task stays in the graph as a raw
  destination until the next resync (`Races.RaceLeavesRawIp`;
  `Interleaving.ExactIffScheduled` is the condition on the schedule).
- With one service name in front of two nodes, or a service named like another
  address, such a race drops a dependency (`Races.AmbiguousNamesDrop`,
  `Races.AddressNamesDrop`; `Races.DepictsIffFaithful` is the condition on the
  directory). The next undisturbed event brings it back (`Races.RetryRecovers`).
- The subgraph indexes mirror each other except for flows into the root, and at
  depth 0 the root's own flows dangle (`Subgraph.SubgraphMirror`,
  `Subgraph.SubgraphDangling`).
- Replaying a service-pod map is not always idempotent if a namespace is called
  "unknown" (`Resync.UnknownNamespaceReplays`; `Replay.ReplayIffStable` is the
  condition on the list).
- A map entry called after an address in a namespace "unknown" can bring the raw
  node of that address back (`PodMap.MapClearsIff` is the condition on the map).
- The persistence key omits namespaces and the method (`Flush.NamespaceIgnored`;
  `Flush.WrittenIffNew` says which flows are written).
- The response names the ends of flows by application only, so the UI can attach
  an edge to the wrong node; `UiTransform.EdgesPreservedIff` says exactly when.
- Edge keys, response keys and UI keys are ambiguous for names holding their
  separators (`ArrivalOrder.EdgeKeysCollide`, `Response.KeyTextsCollide`,
  `UiTopology.SeenKeysCollide`); `ArrivalOrder.EdgeKeysCollideIff`,
  `Response.KeyTextsCollideIff` and `UiTopology.SeenKeysCollideIff` list the
  names that share a key.

## Model

| member | source | states |
|---|---|---|
| Graph.CallFlows | core/src/topology/topology.rs:98-111 | on a sound graph, recording a call adds its flow to the flow multiset of both indexes exactly if it is not there yet |
| Graph.CallSound | core/src/aggregator/ebpf_aggregator.rs:133-161 | recording a call keeps the invariant: flows sit in the buckets of their own endpoints, both indexes hold the same multiset, endpoints are nodes |
| Graph.EventSound | core/src/topology/topology.rs:113-117 | attaching a Kubernetes event keeps the invariant, every flow and every node |
| Topology.Topology.AddNode | core/src/topology/topology.rs:91-96 | the object's new state: a known node keeps its data |
| Topology.Topology.AddFlow | core/src/topology/topology.rs:98-111 | the object's new state: the flow is filed under its destination and its source, at most once each |
| Topology.Topology.AddK8sEvent | core/src/topology/topology.rs:113-117 | the object's new state: the event is appended to a known node, otherwise nothing changes |
| Topology.Topology.ResolveUnknownNode | core/src/topology/topology.rs:126-189 | the in-place rename and merge computes `Graph.Healed`, the function the healing theorems are about |
| Healing.HealedFlows | core/src/topology/topology.rs:126-189 | healing maps the flow multisets of both indexes pointwise under the rename, conserves their sizes and replaces the stale node by the resolved one |
| Healing.HealedFlowsSound | core/src/topology/topology.rs:126-189 | on a sound graph the same holds whether or not the raw IP is a node |
| Healing.HealedSound | core/src/topology/topology.rs:126-189 | healing keeps the structural invariant, merges included |
| Healing.HealedData | core/src/topology/topology.rs:142-148 | the stale node's data passes to a new node and is dropped on a merge; every other node keeps its data |
| Healing.HealedBuckets | core/src/topology/topology.rs:150-188 | the raw node's flows follow those of the resolved node in its bucket, and every other bucket keeps its order |
| Healing.HealedForgets | core/src/topology/topology.rs:126-189 | healed into a different id, the raw IP is no node, no bucket key and no endpoint of any flow |
| Healing.HealedNoDuplicates | core/src/topology/topology.rs:145-188 | a duplicate-free graph stays duplicate-free if and only if the rename identifies no two of its flows |
| Healing.FreshNoDuplicates | core/src/topology/topology.rs:145-188 | in particular when no flow mentions the resolved id |
| Healing.MergeDuplicates | core/src/topology/topology.rs:152-165 | merging into a node the same caller already calls lists that flow twice |
| Healing.HealsCommute | core/src/topology/topology.rs:126-189 | two heals of different IPs into namespaces other than "unknown" give the same nodes and flow multisets in either order |
| Paths.BallIsReach | core/src/topology/topology.rs:222-247 | the vertices found level by level are exactly those at the end of a walk of at most that many edges |
| Subgraph.Search | core/src/topology/topology.rs:222-247 | the search visits exactly the vertices within `depth` calls of the root, early stop included, and records a shortest-path spanning tree of them: one parent each, one hop nearer, none for the root |
| Subgraph.CollectCallers | core/src/topology/topology.rs:249-255 | the direct callers of the root |
| Subgraph.FilterFlows | core/src/topology/topology.rs:257-304 | the returned indexes hold, for visited vertices only, all flows of the root and tree flows elsewhere, in their order |
| Subgraph.FilterInOrder | core/src/topology/topology.rs:273-303 | filtering a bucket by the tree keeps the order of the flows it keeps |
| Subgraph.GetSubgraph | core/src/topology/topology.rs:208-311 | an unknown root gives the empty result; otherwise the nodes are the ball of that depth plus the root's callers, with flows shown through some shortest-path tree |
| Topology.Topology.GetSubgraph | core/src/topology/topology.rs:208-311 | the same for the current state of the object, which it leaves unchanged |
| Subgraph.CallsOfSound | core/src/topology/topology.rs:230-245 | on a sound graph, following downstream buckets is following the dependency relation |
| Subgraph.SubgraphMirror | core/src/topology/topology.rs:257-304 | a flow is listed equally often on both sides if and only if it does not lead from elsewhere into the root, nor, at depth 0, out of it |
| Subgraph.SubgraphDangling | core/src/topology/topology.rs:257-304 | every endpoint shown is a returned node if and only if the depth is at least 1 or all callees of the root also call it |
| Subgraph.SubgraphSaturates | ui/src/views/TopologyView.tsx:58-59 | with n nodes, every depth of at least n - 1 returns everything reachable and the root's callers |
| Subgraph.SubgraphMonotone | core/src/topology/topology.rs:229-247 | deeper subgraphs return at least the nodes of shallower ones |
| Paths.Saturation | core/src/topology/topology.rs:229-247 | pigeonhole: with n vertices, n - 1 hops reach everything reachable |
| Ingestion.RunSound | core/src/aggregator/ebpf_aggregator.rs:44-164 | the structural invariant holds after every run of interleaved events, pod messages, deletions, route pushes and attachments |
| Ingestion.EventTaskAtomic | core/src/aggregator/ebpf_aggregator.rs:44-164 | an event task scheduled without interruption has the effect of the sequential handler |
| Ingestion.PodTaskAtomic | core/src/server/grpc.rs:205-217 | a pod handler scheduled without interruption has the effect of recording its messages in order |
| Events.HostNamed | core/src/aggregator/ebpf_aggregator.rs:240-266 | what a port-free host stands for: an address or a single label itself, in "unknown"; with a later label beginning with "svc" its first two labels; anything else itself, "external" |
| Events.EventIgnored | core/src/aggregator/ebpf_aggregator.rs:44-72 | a path that holds "/health" anywhere, and a source without an application name, change nothing |
| Events.EventRecorded | core/src/aggregator/ebpf_aggregator.rs:44-164 | every other event, with any host and port: the destination is that of the route of the port-free host, else of the identified pod, else what the host stands for; the key is written out; under a new key the graph gains exactly that flow with path and method, new nodes get the addresses they were seen at, and known ones keep their data |
| Events.EventAddsPair | core/src/aggregator/ebpf_aggregator.rs:81-161 | hence exactly that pair joins the dependency relation of a sound graph |
| Events.PodRecorded | core/src/aggregator/k8s_aggregator.rs:48-84 | a pod message is cached as it is; with an application name it renames the raw node of its IP in every dependency, without one it leaves the graph alone |
| Events.EventAttached | core/src/topology/topology.rs:113-117 | a Kubernetes event is appended to the list of its node, if there is one; nothing else changes |
| ExactlyOnce.RunConsistent | core/src/aggregator/ebpf_aggregator.rs:107-161 | after every run, each claimed key is held by exactly one task still before the graph step or is recorded by a flow, renamed through all heals since, that is in the graph; the graph has no other flows; flows with multiplicity plus pending tasks never exceed the number of claimed keys |
| ExactlyOnce.WonOnce | core/src/aggregator/ebpf_aggregator.rs:112-121 | at most one task ever wins a given key |
| ArrivalOrder.EdgeKeyInjective | core/src/aggregator/ebpf_aggregator.rs:107-110 | edge keys determine all four names when namespaces hold no '/' and source services no space |
| ArrivalOrder.EdgeKeysCollide | core/src/aggregator/ebpf_aggregator.rs:107-110 | without that, two different edges can share a key |
| ArrivalOrder.EdgeKeysCollideIff | core/src/aggregator/ebpf_aggregator.rs:107-110 | exactly which names do: the first names that differ continue across a separator |
| ArrivalOrder.SameKey | core/src/aggregator/ebpf_aggregator.rs:93-110 | if names keep dependencies apart, calls that may be claimed under the same key, before or after identification, denote the same dependency |
| Serial.SerialExact | core/src/aggregator/ebpf_aggregator.rs:44-164 | in every delete-free run with one identity per pod, namespace and service name fixing the application, literal destination IPs and no IP-keyed route, the dependency relation is exactly the image of the accepted calls under the identities known so far |
| Serial.ExactIffDetermined | core/src/aggregator/ebpf_aggregator.rs:93-131 | for every directory of printable addresses, all such runs are exact if and only if namespace and service name fix the application, for callers (the name as it is) and for callees (the application in place of an empty name) |
| Serial.OrderIndependent | core/src/topology/topology.rs:123-189 | two such runs with the same accepted calls and the same identified pods end with the same dependency relation, whatever the order |
| Schedules.SerialScheduled | core/src/server/grpc.rs:99-104 | every uninterrupted run is an interleaving: its schedule has the same outcome, ends idle and counts exactly the accepted calls |
| Interleaving.RunTracked | core/src/server/grpc.rs:99-104 | under every interleaving, graph and pending tasks depict only counted calls, every claimed key has its dependency there, and none is missing if names keep dependencies apart |
| Interleaving.RunInvents | core/src/aggregator/ebpf_aggregator.rs:44-164 | hence no dependency is depicted that no counted call stands for, whatever the names |
| Interleaving.RunDepicts | core/src/server/grpc.rs:99-104 | recorded and pending dependencies, with raw IPs of identified pods looked through, are exactly the expected ones |
| Interleaving.ExactIffHealed | core/src/aggregator/ebpf_aggregator.rs:133-161 | with no task pending, the graph itself is exact if and only if no flow ends at the raw IP of an identified pod |
| Interleaving.ExactIffScheduled | core/src/aggregator/ebpf_aggregator.rs:84-161 | equivalently, if and only if in the schedule every graph step that records such an IP raw is followed by a heal of it |
| Races.ResyncSettles | core/src/server/grpc.rs:201-223 | after any interleaving, once idle, a resync listing the identified pods makes the graph exact |
| Races.RaceLeavesRawIp | core/src/aggregator/ebpf_aggregator.rs:84-161 | a pod identified between lookup and graph step stays in the finished graph as a raw IP |
| Races.AmbiguousNamesDrop | core/src/aggregator/ebpf_aggregator.rs:84-121 | one service name in front of two nodes, both identified between the two reads of their tasks: the run is disciplined, and a counted call is not depicted |
| Races.AddressNamesDrop | core/src/aggregator/ebpf_aggregator.rs:84-121 | the same with a service named like another address |
| Races.DepictsIffFaithful | core/src/aggregator/ebpf_aggregator.rs:84-121 | for every directory of printable addresses, all interleavings depict exactly the counted calls if and only if namespace and service name fix the application and, seen from a third pod, a service name alone fixes its node and is no address but the pod's own |
| Races.RetryRecovers | core/src/aggregator/ebpf_aggregator.rs:93-121 | after any interleaving, the next undisturbed event to an identified destination leaves its dependency depicted |
| Races.SourcesIdentified | core/src/aggregator/ebpf_aggregator.rs:53-72 | in every run whose pod messages name real namespaces, with deletions, any hosts and any routes, no recorded or pending flow has a source in namespace "unknown" |
| Collisions.MissingIffSameKey | core/src/aggregator/ebpf_aggregator.rs:73-131 | of two new dependencies, whatever the hosts and routes, the second is missing if and only if both events have one key and the dependencies differ |
| Collisions.SameKeyIff | core/src/aggregator/ebpf_aggregator.rs:93-110 | for names without separators, one key means the same namespaces and service names at both ends |
| Collisions.SharedServiceDrops | core/src/aggregator/ebpf_aggregator.rs:93-131 | two applications behind one service: the second call changes nothing and its dependency is missing |
| Collisions.SharedCallerDrops | core/src/aggregator/ebpf_aggregator.rs:59-131 | two applications of one namespace calling from behind one service, or from behind none: likewise |
| Collisions.SharedProxyDrops | core/src/aggregator/ebpf_aggregator.rs:81-131 | two routed hosts behind one proxy pod that has a service name: likewise |
| Resync.ResyncIdempotent | core/src/server/grpc.rs:205-217 | replaying any service-pod map leaves pod cache and graph exactly as after the first pass, unless it resolves into a raw id it has named before; lists without namespace "unknown" never do |
| Resync.ResyncClears | core/src/aggregator/k8s_aggregator.rs:48-84 | after such a pass no stale node remains for an IP listed with an application name |
| Resync.PassClears | core/src/aggregator/k8s_aggregator.rs:65-81 | a stale node survives a pass if and only if it was there and its IP is not so listed |
| Resync.UnknownNamespaceReplays | core/src/aggregator/k8s_aggregator.rs:65-81 | with a namespace "unknown" a replay can change the state |
| Replay.PassMaps | core/src/topology/topology.rs:126-189 | any pass maps every node, and every flow with its multiplicity, to the end of its chain of renames |
| Replay.ReplayIffStable | core/src/server/grpc.rs:205-217 | a replay leaves nodes and flows of every sound graph alone if and only if the list moves no end of its own chains |
| Server.CoreServer.RecordEbpfEvent | core/src/aggregator/ebpf_aggregator.rs:44-164 | the handler's effect on caches, claimed keys and graph is `Ingestion.RecordEvent`, which `Events.EventRecorded` gives from the request; each of its four replies is given exactly in its case |
| Server.CoreServer.RecordPodApplied | core/src/aggregator/k8s_aggregator.rs:48-84 | the new state is `Ingestion.RecordPod` |
| Server.CoreServer.RecordPodDeleted | core/src/aggregator/k8s_aggregator.rs:86-88 | only the pod cache entry goes, as in the step of the transition system |
| Server.CoreServer.RecordK8sResourceEvent | core/src/aggregator/k8s_aggregator.rs:156-176 | only the named node's event list changes, as in the step of the transition system |
| Server.CoreServer.SendServicePodMap | core/src/server/grpc.rs:201-223 | the nested loops record the messages of all entries in order, and leave the cache as `Server.MapCached` says |
| Server.MapCached | core/src/server/grpc.rs:205-217 | after a map an IP is cached if and only if it was or some entry lists it; a listed one has the namespace, application, service and type of the last entry that lists it, any other is unchanged |
| PodMap.MapClears | core/src/aggregator/k8s_aggregator.rs:65-81 | the raw node of an IP remains if and only if it was there and no entry lists the IP with an application name, provided no entry is called after the IP in namespace "unknown" |
| PodMap.MapClearsIff | core/src/aggregator/k8s_aggregator.rs:65-81 | a map is sure to leave no raw node of an IP, whatever the graph, if and only if it moves no raw id there in the end |
| PodMap.MapResolves | core/src/aggregator/k8s_aggregator.rs:48-84 | with no entry in namespace "unknown", nodes and flows after the map are the old ones with every raw id replaced by application and namespace of the first entry that names its IP |
| Server.CoreServer.SendEnvoyRoutes | core/src/server/grpc.rs:259-274 | only the route cache changes, entry by entry, as in that many steps of the transition system |
| Response.CollectsExact | core/src/server/handler.rs:53-115 | with '/'-free namespaces the string-keyed response holds every entry of the map and no other |
| Response.KeyTextInjective | core/src/server/handler.rs:53-115 | the response key determines the node when namespaces hold no '/' |
| Response.KeyTextsCollide | core/src/server/handler.rs:53-115 | otherwise two nodes can share a key |
| Response.KeyTextsCollideIff | core/src/server/handler.rs:53-115 | exactly when one namespace is the other, a '/' and a text with which the other's application begins |
| Response.TopologyServed | core/src/server/handler.rs:53-115 | the same of the response for the whole graph |
| Response.SubgraphServed | core/src/server/handler.rs:127-196 | the subgraph response holds, under "namespace/application", exactly the nodes of the subgraph with name, namespace and IP and its buckets flow by flow with names, method and path: the filter on known nodes drops nothing |
| UiTopology.ConnectExact | ui/src/utils/topologyUtils.ts:34-63 | with arrow-free ids, the connections are exactly those some listed flow with known ends asks for |
| UiTopology.ConnectDistinct | ui/src/utils/topologyUtils.ts:34-63 | no connection is listed twice |
| UiTopology.NamesLast | ui/src/utils/topologyUtils.ts:28-32 | a name stands for the id of the last node that has it |
| UiTopology.ConnectionsExact | ui/src/utils/topologyUtils.ts:34-63 | with arrow-free ids there is a downstream connection if and only if some flow of the downstream lists names its ends, and an upstream one likewise |
| UiTopology.ConnectOrdered | ui/src/utils/topologyUtils.ts:34-63 | connections come in the order in which flows first ask for them |
| UiTopology.AllItemsInOrder | ui/src/utils/topologyUtils.ts:53-63 | flows ask list by list, downstream before upstream |
| UiTopology.SeenKeysCollide | ui/src/utils/topologyUtils.ts:34-63 | with an arrow in an id, two connections share a key |
| UiTopology.SeenKeysCollideIff | ui/src/utils/topologyUtils.ts:34-63 | exactly when one source is the other, an arrow and a text with which the other's target begins |
| UiRoot.ChooseRoot | ui/src/utils/topologyUtils.ts:65-74 | the root has the greatest number of downstream connections, and is the first to appear among those; without any it is the smallest id |
| UiRoot.OutDegreeCounts | ui/src/utils/topologyUtils.ts:67-70 | the degree compared is the number of downstream connections from the node |
| UiRoot.LexLeqIff | ui/src/utils/topologyUtils.ts:72-74 | the smallest id begins the others or is smaller where they first differ |
| UiLayers.AssignLayers | ui/src/utils/topologyUtils.ts:76-92 | the queue search layers exactly the nodes reachable from the root, each with its exact downstream distance, and enqueues each exactly once |
| UiTransform.TransformTopologyData | ui/src/utils/topologyUtils.ts:23-103 | every received node becomes one service, in order, with its distance from the root as layer and 1 if unreachable; no data gives the empty result |
| UiTransform.TopologyShown | core/src/server/handler.rs:53-115 | the browser receives the whole graph |
| UiTransform.EdgesPreserved | ui/src/utils/topologyUtils.ts:28-63 | if no end of a flow shares its application name with another node, the UI's downstream connections and its upstream connections are each exactly the graph's dependency pairs |
| UiTransform.EdgesPreservedIff | ui/src/utils/topologyUtils.ts:28-63 | that condition is exact: without it some order of the received nodes loses an edge |
| UiTransform.NodesPreserved | ui/src/utils/topologyUtils.ts:94-102 | no node is dropped, duplicated or invented |
| UiTransform.LayerIsDepth | ui/src/utils/topologyUtils.ts:76-92 | a service has a layer of at most d in the UI's search exactly when the core's search visits it at depth d |
| UiLayout.ConvertToFlowData | ui/src/utils/topologyUtils.ts:109-233 | the root goes to the centre; around it the layers 1 to the number of outer layers, each arranged, seventy to a ring, on rings of its own outside the layers before, beginning beyond radius 200; every radius is the least that its bounds allow; positions are strictly increasing, rings at least 300 apart, within a layer each at least 15 percent wider than the one inside it, and at least 260 long per service |
| UiLayout.LayoutComplete | ui/src/utils/topologyUtils.ts:109-233 | the drawn nodes are a permutation of the services if and only if the centre is alone on its layer and the other layers are numbered from 1 without gap |
| UiLayout.LayerRings | ui/src/utils/topologyUtils.ts:173-201 | the rings of one layer: seventy services each, the rest on the last, each radius the least allowed; a second ring exists only outside a full one, whence the gap of 300 |
| UiLayout.NextRadiusLeast | ui/src/utils/topologyUtils.ts:184-199 | a ring is the smallest that leaves 260 per service and lies 300 beyond the layer below, or 40 and 15 percent beyond the ring before |
| UiLayout.OnLayerInOrder | ui/src/utils/topologyUtils.ts:117-122 | a layer lists its services in the order in which they came |
| UiDrawing.TransformedContiguous | ui/src/utils/topologyUtils.ts:76-100 | the layers of transformed data have that form |
| UiDrawing.DrawTopology | ui/src/utils/topologyUtils.ts:109-233 | transform and layout together draw a permutation of the services, at distinct places on such rings |
| UiDrawing.NodeDrawnOnce | ui/src/utils/topologyUtils.ts:94-233 | from graph to screen: every node of the graph is drawn, exactly once |
| UiNeighbours.ConnectedNodeIds | ui/src/utils/topologyUtils.ts:356-379 | the highlighted ids are exactly those within `depth` connections in either direction, or all connected ones for an infinite depth |
| UiNeighbours.BallSymmetric | ui/src/utils/topologyUtils.ts:353-379 | being highlighted together is symmetric |
| Hosts.Ipv4TextIsIpv4 | core/src/aggregator/ebpf_aggregator.rs:240-266 | every printed address is recognised as one and carries no port |
| Hosts.Ipv4Printed | core/src/aggregator/ebpf_aggregator.rs:244-247 | every text recognised as an address is a printed one |
| Hosts.Ipv4TextInjective | core/src/aggregator/ebpf_aggregator.rs:49-51 | different addresses print differently |
| Hosts.SvcHost | core/src/aggregator/ebpf_aggregator.rs:240-266 | a host with a "svc" label after another is named by its first two labels |
| Hosts.ParsersAgree | cluster-agent/src/kubernetes/envoy_parser.rs:121-131 | on port-free hosts the address parser accepts, both parsers agree if and only if the two labels before "svc" equal the first two, as when "svc" is the third |
| Http.RequestRoundTrip | ebpf-common/src/lib.rs:41-84 | a request with Host first, with or without a port, whose head fits the window of 128 bytes parses back to its method, target and host, whatever follows (section 3 of RFC 9112, section 7.2 of RFC 9110) |
| Http.MethodExact | ebpf-common/src/lib.rs:46-52 | for every payload: the method is what stands before the first space, if that is valid UTF-8 |
| Http.PathExact | ebpf-common/src/lib.rs:54-62 | the path is what stands between the first space and the next one or the end, if valid |
| Http.HostExact | ebpf-common/src/lib.rs:64-84 | the host is the value after the first "Host:" in any case, without blanks before it, up to the line end or the end of the payload, without its port, if there is one and it is valid |
| Utf8.ValidIffEncoded | ebpf-common/src/lib.rs:50-81 | the validity check accepts exactly the encodings of sequences of Unicode scalar values |
| Http.TruncationPrefix | ebpf-common/src/lib.rs:41-84 | what parses from a truncated payload is a prefix of what parses from the full one; a parsed method is the same |
| Envoy.ParseEnvoyRoutes | cluster-agent/src/kubernetes/envoy_parser.rs:18-118 | the nested loops compute `RoutesOf`, for every YAML tree; `EnvoyPrint.PrintedRoutes` says what that is for a configuration as written |
| Envoy.RoutesExact | cluster-agent/src/kubernetes/envoy_parser.rs:27-117 | a route is emitted if and only if it is a parseable cluster address, or a non-wildcard domain of a virtual host whose first route names a cluster, with the service of the last parseable cluster of that name |
| EnvoyPrint.PrintedRoutes | cluster-agent/src/kubernetes/envoy_parser.rs:18-118 | print, then parse: for any clusters, listeners, chains, filters (typed or direct), virtual hosts and routes, the routes read back are first the addresses that show a service, then the non-wildcard domains whose first route names a cluster, with the service of its last parseable declaration, each in the order written |
| EnvoyPrint.PrintedRoutesExact | cluster-agent/src/kubernetes/envoy_parser.rs:18-118 | the same as an if-and-only-if for a single route |
| EnvoyPrint.ServiceShown | cluster-agent/src/kubernetes/envoy_parser.rs:120-131 | an address shows a service if and only if its first "svc" label has two labels before it, and these are application and namespace |
| Envoy.ClusterMapLast | cluster-agent/src/kubernetes/envoy_parser.rs:29-52 | the cluster map holds the last parseable cluster of each name |
| Envoy.LookupAfterPush | core/src/server/grpc.rs:263-268 | after a push a domain resolves to its last pushed entry, or as before if it was not pushed |
| Json.EscapeIsPerCharacter | cluster-agent/src/kubernetes/event_handler.rs:88-93 | the four sequential replacements equal one per-character map |
| Json.EscapeRoundTrip | cluster-agent/src/kubernetes/event_handler.rs:88-93 | decoding an escaped string (section 7 of RFC 8259) gives it back if its only control characters are LF and CR, and is rejected otherwise |
| Json.EventDataRoundTrip | cluster-agent/src/kubernetes/event_handler.rs:63-86 | the built event object parses back to its seven fields by name, absent ones to "", "Normal" and 1, if and only if its texts are printable |
| Registry.ServiceRegistry.Register | cluster-agent/src/kubernetes/service_registry.rs:28-61 | the new registry: named services with a selector are stored under "namespace/name" with their type or "ClusterIP", all others change nothing; each reply is given exactly in its case |
| Registry.ServiceRegistry.Deregister | cluster-agent/src/kubernetes/service_registry.rs:63-72 | only the key "namespace/name" goes |
| Registry.ServiceRegistry.FindServiceForPod | cluster-agent/src/kubernetes/service_registry.rs:74-87 | some service is answered if and only if the pod has labels and the entries of some registered selector are a subset of them, and it is such a service's name and type, in whatever order they are tried |
| Registry.BuiltExact | cluster-agent/src/kubernetes/service_registry.rs:28-61 | after any list of services a key holds the record of the last managing service with it |
| Registry.InitialPodServiceMap | cluster-agent/src/server/mod.rs:161-197 | one entry, in order, for each service that manages a listed pod: its name, namespace and type or "ClusterIP", and the IPs of the pods that carry all entries of its selector, in their order |
| Registry.BulkEntriesExact | cluster-agent/src/server/mod.rs:161-197 | hence an entry is sent if and only if it is that of some listed service |
| Registry.SelectedIpsExact | cluster-agent/src/server/mod.rs:182-192 | an IP is in a service's entry if and only if some pod with that IP has every entry of the selector among its labels |
| Registry.MismatchExcludes | cluster-agent/src/server/mod.rs:184-189 | one missing or different label keeps an IP out |
| Registry.RegistryAgreesWithBulk | cluster-agent/src/kubernetes/service_registry.rs:28-87 | a pod with an IP gets a service from the registry if and only if the bulk pass matches it to an entry, and the service is that of such an entry |
| Flush.Snapshot | core/src/aggregator/ebpf_aggregator.rs:180-209 | the snapshot is the flow multiset as rows, in any bucket order |
| Flush.EventTable.AddEvents | core/src/dao/db.rs:118-179 | every event is added as often as it is listed if no stored row has its source application, destination application, path and destination port, and not at all otherwise; nothing else changes |
| Flush.EventTable.Tick | core/src/aggregator/ebpf_aggregator.rs:173-217 | one tick flushes a snapshot |
| Flush.FlushedCalls | core/src/dao/db.rs:118-179 | after a flush some row has a given caller, callee, path and port if and only if one did before or, with port 0, the graph has such a flow |
| Flush.FlushIdempotent | core/src/dao/db.rs:118-179 | flushing an unchanged graph again writes nothing |
| Flush.InsertedOnlyFirst | core/src/dao/db.rs:118-179 | over any run of flushes, rows are never removed and rows for a caller, callee and path are added only by the first flush whose graph has such a flow |
| Flush.FlowWritten | core/src/dao/db.rs:118-179 | the row that holds the time, both ends with namespaces, method and path of a flow is added as often as the graph lists it if no stored row has its caller, callee and path, and not at all otherwise |
| Flush.OnlyFlowsWritten | core/src/aggregator/ebpf_aggregator.rs:188-209 | no row is added that does not hold exactly these columns of a flow of the graph |
| Flush.WrittenIffNew | core/src/dao/db.rs:133-157 | a flow is newly stored if and only if the graph has it and no stored row has its source application, destination application, path and port 0 |
| Flush.NamespaceIgnored | core/src/dao/db.rs:133-157 | hence a flow that differs from a stored one only in namespaces or method is never written |

## Left out

- Transports (gRPC, HTTP, Kubernetes watchers, ClickHouse, MCP), configuration and logging.
- SQL text, pagination, the table's TTL and database errors; only the deduplicating write is modelled.
- Lock poisoning: every lock is taken, as in a run in which no thread panics.
- Wall-clock time: timestamps are parameters.
- The kernel socket filter; captured payloads start at the userspace record, clamped to 128 bytes.
- Bytes are written as characters, and addresses as four octets; the byte order in which the kernel packs them into 32 bits is not modelled.
- Depths are unbounded naturals instead of 32-bit ones.
- YAML text: the parser is left out and trees are the input; number formats are not distinguished.
- JSON reading accepts what the printer writes: no white space between tokens, no `\u` escapes of surrogate pairs.
- Coordinates: a place is a ring radius and a slot; cosine and sine, the start angle and the rounding of floating point are left out, and pi is any positive real up to 4.
- Sorting within a layer is a parameter, any permutation, since it uses the browser's locale.
- UiRoot.ChooseRoot: the smallest id is by character code, where JavaScript compares UTF-16 units; they differ only beyond the basic plane.
- Drawn edges: they copy the connections one for one.
- Colour tables, statistics and environment helpers of the UI, other informer handlers and the service cache, which only insert into or look up a map.
- Serial.ExactIffDetermined: pods without an application name or in namespace "unknown" are left out of the directory, and names hold no '/' or ' ' where keys put them; `Collisions.MissingIffSameKey` does without.
- Replay.ReplayIffStable: speaks of node ids and flow multisets; node data and bucket order are covered by `Resync.ResyncIdempotent` only.
- The load generator, charts and manifests.
