/** The service-dependency graph as a value: what each operation of the
    topology computes, and the structural invariant every one of them keeps. */
module Graph {
  import opened Bags

  /** A service; `applicationName` holds a raw IP, in namespace "unknown",
      until the pod behind that IP is identified. */
  datatype NodeId = NodeId(applicationName: string, namespace: string)

  datatype Flow = Flow(source: NodeId, destination: NodeId, path: string, httpMethod: string)

  datatype K8sEvent = K8sEvent(timestamp: nat, resourceName: string, resourceType: string,
                               eventType: string, eventData: string)

  datatype NodeData = NodeData(ip: string, k8sEvents: seq<K8sEvent>)

  type Index = map<NodeId, seq<Flow>>

  /** `upstream` is keyed by destination, `downstream` by source. */
  datatype Graph = Graph(nodes: map<NodeId, NodeData>, upstream: Index, downstream: Index)

  const EMPTY := Graph(map[], map[], map[])

  const UNKNOWN := "unknown"

  function Bucket(index: Index, id: NodeId): seq<Flow> {
    if id in index then index[id] else []
  }

  function WithNode(g: Graph, id: NodeId, data: NodeData): Graph {
    if id in g.nodes then g else g.(nodes := g.nodes[id := data])
  }

  function Filing(index: Index, id: NodeId, flow: Flow): Index {
    var bucket := Bucket(index, id);
    index[id := if flow in bucket then bucket else bucket + [flow]]
  }

  function WithFlow(g: Graph, flow: Flow): Graph {
    g.(upstream := Filing(g.upstream, flow.destination, flow),
       downstream := Filing(g.downstream, flow.source, flow))
  }

  function WithEvent(g: Graph, id: NodeId, event: K8sEvent): Graph {
    if id in g.nodes then
      g.(nodes := g.nodes[id := g.nodes[id].(k8sEvents := g.nodes[id].k8sEvents + [event])])
    else g
  }

  /** Both endpoints, then the flow: the graph step of an accepted event. */
  function WithCall(g: Graph, flow: Flow, sourceIp: string, destinationIp: string): Graph {
    WithFlow(WithNode(WithNode(g, flow.source, NodeData(sourceIp, [])),
                      flow.destination, NodeData(destinationIp, [])),
             flow)
  }

  function Stale(ip: string): NodeId { NodeId(ip, UNKNOWN) }

  function Rename(id: NodeId, stale: NodeId, resolved: NodeId): NodeId {
    if id == stale then resolved else id
  }

  function RenameFlow(flow: Flow, stale: NodeId, resolved: NodeId): Flow {
    flow.(source := Rename(flow.source, stale, resolved),
          destination := Rename(flow.destination, stale, resolved))
  }

  function Renamer(stale: NodeId, resolved: NodeId): Flow -> Flow {
    flow => RenameFlow(flow, stale, resolved)
  }

  function MoveNode(nodes: map<NodeId, NodeData>, stale: NodeId, resolved: NodeId): map<NodeId, NodeData>
    requires stale in nodes
  {
    var rest := nodes - {stale};
    if resolved in rest then rest else rest[resolved := nodes[stale]]
  }

  function MoveBucket(index: Index, stale: NodeId, resolved: NodeId): Index {
    if stale in index then
      var rest := index - {stale};
      rest[resolved := Bucket(rest, resolved) + index[stale]]
    else index
  }

  function HealedIndex(index: Index, stale: NodeId, resolved: NodeId): Index {
    MapIndex(MoveBucket(index, stale, resolved), Renamer(stale, resolved))
  }

  /** The node of a raw IP, if there is one, renamed to the resolved service
      everywhere; a no-op otherwise. */
  function Healed(g: Graph, ip: string, applicationName: string, namespace: string): Graph {
    var stale, resolved := Stale(ip), NodeId(applicationName, namespace);
    if stale in g.nodes then
      Graph(MoveNode(g.nodes, stale, resolved),
            HealedIndex(g.upstream, stale, resolved),
            HealedIndex(g.downstream, stale, resolved))
    else g
  }

  /** Every flow sits in the bucket named by its own endpoint. */
  ghost predicate Filed(g: Graph) {
    && (forall id, flow :: id in g.upstream && flow in g.upstream[id] ==> flow.destination == id)
    && (forall id, flow :: id in g.downstream && flow in g.downstream[id] ==> flow.source == id)
  }

  /** The endpoints of every flow are nodes. */
  ghost predicate Closed(g: Graph) {
    forall flow :: flow in Flat(g.downstream) ==> flow.source in g.nodes && flow.destination in g.nodes
  }

  /** The structural invariant: filed, mirrored with multiplicity, and closed. */
  ghost predicate Sound(g: Graph) {
    Filed(g) && Flat(g.upstream) == Flat(g.downstream) && Closed(g)
  }

  /** All flows of the graph, with multiplicity. */
  ghost function Flows(g: Graph): multiset<Flow> { Flat(g.downstream) }

  /** The dependency relation: which service calls which. */
  ghost function Pairs(g: Graph): set<(NodeId, NodeId)> {
    set flow | flow in Flows(g) :: (flow.source, flow.destination)
  }

  lemma FlatBucket(index: Index, flow: Flow, id: NodeId)
    requires forall j :: j in index && flow in index[j] ==> j == id
    ensures Flat(index)[flow] == multiset(Bucket(index, id))[flow]
  {
    var rest := index - {id};
    FlatMember(rest, flow);
    assert forall j :: j in rest ==> rest[j] == index[j];
    assert flow !in Flat(rest);
    if id in index {
      FlatRemove(index, id);
    } else {
      assert rest == index;
    }
  }

  /** What the invariant says bucket by bucket: a flow is listed under its
      destination as often as under its source. */
  lemma MirrorByBucket(g: Graph, flow: Flow)
    requires Sound(g)
    ensures multiset(Bucket(g.upstream, flow.destination))[flow] == Flows(g)[flow]
    ensures multiset(Bucket(g.downstream, flow.source))[flow] == Flows(g)[flow]
  {
    FlatBucket(g.upstream, flow, flow.destination);
    FlatBucket(g.downstream, flow, flow.source);
  }

  lemma FilingAdds(index: Index, id: NodeId, flow: Flow)
    ensures Flat(Filing(index, id, flow))
         == Flat(index) + if flow in Bucket(index, id) then multiset{} else multiset{flow}
  {
    var bucket := Bucket(index, id);
    var bigger := if flow in bucket then bucket else bucket + [flow];
    FlatPut(index, id, bigger);
    if id in index {
      FlatRemove(index, id);
    } else {
      assert index - {id} == index;
    }
  }

  /** A call adds its flow exactly once, however often it is repeated. */
  lemma CallFlows(g: Graph, flow: Flow, sourceIp: string, destinationIp: string)
    requires Sound(g)
    ensures Flows(WithCall(g, flow, sourceIp, destinationIp))
         == Flows(g) + if flow in Flows(g) then multiset{} else multiset{flow}
    ensures Flat(WithCall(g, flow, sourceIp, destinationIp).upstream)
         == Flat(g.upstream) + if flow in Flows(g) then multiset{} else multiset{flow}
  {
    MirrorByBucket(g, flow);
    FilingAdds(g.upstream, flow.destination, flow);
    FilingAdds(g.downstream, flow.source, flow);
  }

  lemma FilingMember(index: Index, id: NodeId, flow: Flow, j: NodeId, other: Flow)
    requires j in Filing(index, id, flow) && other in Filing(index, id, flow)[j]
    ensures (j == id && other == flow) || (j in index && other in index[j])
  {
  }

  lemma CallFiled(g: Graph, flow: Flow, sourceIp: string, destinationIp: string)
    requires Filed(g)
    ensures Filed(WithCall(g, flow, sourceIp, destinationIp))
  {
    var h := WithCall(g, flow, sourceIp, destinationIp);
    forall id, other | id in h.upstream && other in h.upstream[id] ensures other.destination == id {
      FilingMember(g.upstream, flow.destination, flow, id, other);
    }
    forall id, other | id in h.downstream && other in h.downstream[id] ensures other.source == id {
      FilingMember(g.downstream, flow.source, flow, id, other);
    }
  }

  /** Recording a call keeps the invariant. */
  lemma CallSound(g: Graph, flow: Flow, sourceIp: string, destinationIp: string)
    requires Sound(g)
    ensures Sound(WithCall(g, flow, sourceIp, destinationIp))
  {
    var h := WithCall(g, flow, sourceIp, destinationIp);
    CallFiled(g, flow, sourceIp, destinationIp);
    CallFlows(g, flow, sourceIp, destinationIp);
    assert g.nodes.Keys + {flow.source, flow.destination} == h.nodes.Keys;
    CallClosed(g, h, flow);
  }

  lemma CallClosed(g: Graph, h: Graph, flow: Flow)
    requires Closed(g) && h.nodes.Keys == g.nodes.Keys + {flow.source, flow.destination}
    requires Flows(h) == Flows(g) + if flow in Flows(g) then multiset{} else multiset{flow}
    ensures Closed(h)
  {
    forall other | other in Flat(h.downstream) ensures other.source in h.nodes && other.destination in h.nodes {
      assert other == flow || other in Flows(g);
    }
  }

  lemma CallPairs(g: Graph, flow: Flow, sourceIp: string, destinationIp: string)
    requires Sound(g)
    ensures Pairs(WithCall(g, flow, sourceIp, destinationIp)) == Pairs(g) + {(flow.source, flow.destination)}
  {
    CallFlows(g, flow, sourceIp, destinationIp);
  }

  /** Attaching a Kubernetes event keeps the invariant and every flow. */
  lemma EventSound(g: Graph, id: NodeId, event: K8sEvent)
    requires Sound(g)
    ensures Sound(WithEvent(g, id, event))
    ensures Flows(WithEvent(g, id, event)) == Flows(g)
    ensures WithEvent(g, id, event).nodes.Keys == g.nodes.Keys
  {
  }
}
