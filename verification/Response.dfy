/** The topology as served over HTTP: maps keyed by "namespace/application". */
module Response {
  import opened Bags
  import opened Graph
  import opened Hosts
  import opened Paths
  import opened Subgraph

  datatype NodeDto = NodeDto(applicationName: string, namespace: string, ip: string)

  datatype FlowDto = FlowDto(sourceApplication: string, destinationApplication: string, httpMethod: string,
                             path: string)

  datatype TopologyResponse = TopologyResponse(nodes: map<string, NodeDto>, upstream: map<string, seq<FlowDto>>,
                                               downstream: map<string, seq<FlowDto>>)

  function KeyText(id: NodeId): string { id.namespace + "/" + id.applicationName }

  function ToNodeDto(id: NodeId, data: NodeData): NodeDto { NodeDto(id.applicationName, id.namespace, data.ip) }

  function ToFlowDto(flow: Flow): FlowDto {
    FlowDto(flow.source.applicationName, flow.destination.applicationName, flow.httpMethod, flow.path)
  }

  function NodeDtos(nodes: map<NodeId, NodeData>): map<NodeId, NodeDto> {
    map id | id in nodes :: ToNodeDto(id, nodes[id])
  }

  function FlowDtos(index: Index): map<NodeId, seq<FlowDto>> {
    map id | id in index :: MapSeq(index[id], ToFlowDto)
  }

  /** Pairs gathered into a map one by one: a later pair with a key wins. */
  function Collected<V>(pairs: seq<(NodeId, V)>): map<string, V> {
    if pairs == [] then map[]
    else
      var last := pairs[|pairs| - 1];
      Collected(pairs[..|pairs| - 1])[KeyText(last.0) := last.1]
  }

  /** `pairs` lists the entries of `m`, in any order. */
  ghost predicate Enumerates<V>(m: map<NodeId, V>, pairs: seq<(NodeId, V)>) {
    && (forall i :: 0 <= i < |pairs| ==> pairs[i].0 in m && m[pairs[i].0] == pairs[i].1)
    && (forall id :: id in m ==> exists i :: 0 <= i < |pairs| && pairs[i].0 == id)
  }

  ghost predicate Collects<V(!new)>(m: map<NodeId, V>, r: map<string, V>) {
    exists pairs :: Enumerates(m, pairs) && r == Collected(pairs)
  }

  /** `r` may be served for these nodes and indexes; hash maps are walked in no
      particular order. */
  ghost predicate Serves(nodes: map<NodeId, NodeData>, upstream: Index, downstream: Index, r: TopologyResponse) {
    && Collects(NodeDtos(nodes), r.nodes)
    && Collects(FlowDtos(upstream), r.upstream)
    && Collects(FlowDtos(downstream), r.downstream)
  }

  /** The response of the whole topology. */
  ghost predicate ServesTopology(g: Graph, r: TopologyResponse) {
    Serves(g.nodes, g.upstream, g.downstream, r)
  }

  /** The response of a subgraph: only nodes the graph still knows are shown. */
  ghost predicate ServesSubgraph(g: Graph, s: SubgraphResult, r: TopologyResponse) {
    Serves(map id | id in s.nodes && id in g.nodes :: g.nodes[id], s.upstream, s.downstream, r)
  }

  ghost predicate PlainNamespaces<V>(m: map<NodeId, V>) {
    forall id :: id in m ==> '/' !in id.namespace
  }

  lemma KeyTextInjective(id: NodeId, other: NodeId)
    requires KeyText(id) == KeyText(other) && '/' !in id.namespace && '/' !in other.namespace
    ensures id == other
  {
    var s := KeyText(id);
    assert s == id.namespace + ['/'] + id.applicationName && s == other.namespace + ['/'] + other.applicationName;
    SplitAtFirst(id.namespace, '/', id.applicationName);
    SplitAtFirst(other.namespace, '/', other.applicationName);
  }

  lemma SplitAtFirst(a: string, c: char, b: string)
    requires c !in a
    ensures var s := a + [c] + b; IndexOf(s, c) == |a| && s[..|a|] == a && s[|a| + 1..] == b
  {
    var s := a + [c] + b;
    assert s[|a|] == c && s[..|a|] == a;
  }

  lemma {:induction false} CollectedOrigin<V>(pairs: seq<(NodeId, V)>, key: string) returns (i: nat)
    requires key in Collected(pairs)
    ensures i < |pairs| && KeyText(pairs[i].0) == key && Collected(pairs)[key] == pairs[i].1
  {
    var n := |pairs| - 1;
    if KeyText(pairs[n].0) == key {
      i := n;
    } else {
      i := CollectedOrigin(pairs[..n], key);
    }
  }

  lemma {:induction false} CollectedHas<V>(pairs: seq<(NodeId, V)>, i: nat)
    requires i < |pairs|
    ensures KeyText(pairs[i].0) in Collected(pairs)
  {
    var n := |pairs| - 1;
    if i < n {
      CollectedHas(pairs[..n], i);
    }
  }

  /** The map holds exactly the entries of `m`, under their key texts. */
  ghost predicate HoldsExactly<V(!new)>(m: map<NodeId, V>, r: map<string, V>) {
    && (forall id :: id in m ==> KeyText(id) in r && r[KeyText(id)] == m[id])
    && (forall key :: key in r ==> exists id :: id in m && KeyText(id) == key)
  }

  /** With namespaces free of '/', the key text loses nothing: every entry is
      served under its key, unaffected by the order of the walk. */
  lemma CollectsExact<V(!new)>(m: map<NodeId, V>, r: map<string, V>)
    requires PlainNamespaces(m) && Collects(m, r)
    ensures HoldsExactly(m, r)
  {
    var pairs: seq<(NodeId, V)> :| Enumerates(m, pairs) && r == Collected(pairs);
    forall id | id in m ensures KeyText(id) in r && r[KeyText(id)] == m[id] {
      var i :| 0 <= i < |pairs| && pairs[i].0 == id;
      CollectedHas(pairs, i);
      var j := CollectedOrigin(pairs, KeyText(id));
      KeyTextInjective(id, pairs[j].0);
    }
    forall key | key in r ensures exists id :: id in m && KeyText(id) == key {
      var j := CollectedOrigin(pairs, key);
    }
  }

  /** Exactly which nodes share a key: the namespace of one is that of the other,
      a '/' and a text with which the other's application begins. */
  lemma KeyTextsCollideIff(id: NodeId, other: NodeId)
    requires id != other
    ensures KeyText(id) == KeyText(other)
       <==> || Overlaps(id.namespace, id.applicationName, '/', other.namespace, other.applicationName)
            || Overlaps(other.namespace, other.applicationName, '/', id.namespace, id.applicationName)
  {
    assert KeyText(id) == id.namespace + ['/'] + id.applicationName;
    assert KeyText(other) == other.namespace + ['/'] + other.applicationName;
    SeparatedEqual(id.namespace, id.applicationName, '/', other.namespace, other.applicationName);
  }

  /** For instance these two, one of which is lost. */
  lemma KeyTextsCollide()
    ensures KeyText(NodeId("c", "a/b")) == KeyText(NodeId("b/c", "a"))
  {
  }

  /** Whatever a subgraph returns of a sound graph, the graph knows. */
  lemma SubgraphKnown(g: Graph, root: NodeId, depth: nat, s: SubgraphResult)
    requires Sound(g) && IsSubgraph(g, root, depth, s)
    ensures s.nodes <= g.nodes.Keys
  {
    if root in g.nodes {
      var edges := Calls(g.downstream);
      forall e | e in edges ensures e.1 in g.nodes.Keys {
        assert e == (e.0, e.1);
        CallsOfSound(g, e.0, e.1);
        var flow :| flow in Flows(g) && (flow.source, flow.destination) == (e.0, e.1);
      }
      BallInside(edges, root, g.nodes.Keys, depth);
      forall caller | caller in Callers(g, root) ensures caller in g.nodes.Keys {
        var flow :| flow in Bucket(g.upstream, root) && flow.source == caller;
        MirrorByBucket(g, flow);
      }
    }
  }

  /** The nodes served are `ids`, all of them known, with their data. */
  ghost predicate HoldsNodes(g: Graph, ids: set<NodeId>, r: map<string, NodeDto>) {
    && (forall id :: id in ids ==>
        var key := id.namespace + "/" + id.applicationName;
        && id in g.nodes && key in r && r[key].applicationName == id.applicationName
        && r[key].namespace == id.namespace && r[key].ip == g.nodes[id].ip)
    && (forall key :: key in r ==> exists id :: id in ids && key == id.namespace + "/" + id.applicationName)
  }

  /** The flows as they are served: names without namespaces, method and path. */
  ghost predicate FlowsAlike(flows: seq<Flow>, served: seq<FlowDto>) {
    && |served| == |flows|
    && forall k :: 0 <= k < |flows| ==>
         && served[k].sourceApplication == flows[k].source.applicationName
         && served[k].destinationApplication == flows[k].destination.applicationName
         && served[k].httpMethod == flows[k].httpMethod && served[k].path == flows[k].path
  }

  /** Every bucket is served under its node's key, flow by flow. */
  ghost predicate HoldsFlows(index: Index, r: map<string, seq<FlowDto>>) {
    && (forall id :: id in index ==>
        var key := id.namespace + "/" + id.applicationName;
        key in r && FlowsAlike(index[id], r[key]))
    && (forall key :: key in r ==> exists id :: id in index && key == id.namespace + "/" + id.applicationName)
  }

  lemma NodesServed(g: Graph, ids: set<NodeId>, r: map<string, NodeDto>)
    requires ids <= g.nodes.Keys && PlainNamespaces(g.nodes)
    requires Collects(NodeDtos(map id | id in ids && id in g.nodes :: g.nodes[id]), r)
    ensures HoldsNodes(g, ids, r)
  {
    var shown := map id | id in ids && id in g.nodes :: g.nodes[id];
    CollectsExact(NodeDtos(shown), r);
    forall id | id in ids ensures KeyText(id) in r && r[KeyText(id)] == ToNodeDto(id, g.nodes[id]) {
      assert NodeDtos(shown)[id] == ToNodeDto(id, g.nodes[id]);
    }
  }

  lemma BucketServed(flows: seq<Flow>)
    ensures FlowsAlike(flows, MapSeq(flows, ToFlowDto))
  {
    assert forall k :: 0 <= k < |flows| ==> MapSeq(flows, ToFlowDto)[k] == ToFlowDto(flows[k]);
  }

  lemma FlowsServed(index: Index, r: map<string, seq<FlowDto>>)
    requires PlainNamespaces(index) && Collects(FlowDtos(index), r)
    ensures HoldsFlows(index, r)
  {
    CollectsExact(FlowDtos(index), r);
    forall id | id in index ensures KeyText(id) in r && FlowsAlike(index[id], r[KeyText(id)]) {
      BucketServed(index[id]);
    }
  }

  /** The whole topology: every node and every bucket is served under its key,
      and nothing else. */
  lemma TopologyServed(g: Graph, r: TopologyResponse)
    requires ServesTopology(g, r)
    requires PlainNamespaces(g.nodes) && PlainNamespaces(g.upstream) && PlainNamespaces(g.downstream)
    ensures HoldsNodes(g, g.nodes.Keys, r.nodes)
    ensures HoldsFlows(g.upstream, r.upstream) && HoldsFlows(g.downstream, r.downstream)
  {
    assert (map id | id in g.nodes.Keys && id in g.nodes :: g.nodes[id]) == g.nodes;
    NodesServed(g, g.nodes.Keys, r.nodes);
    FlowsServed(g.upstream, r.upstream);
    FlowsServed(g.downstream, r.downstream);
  }

  /** The subgraph response: no returned node is filtered out, and nodes and
      flows are served exactly as the subgraph has them. */
  lemma SubgraphServed(g: Graph, root: NodeId, depth: nat, s: SubgraphResult, r: TopologyResponse)
    requires Sound(g) && IsSubgraph(g, root, depth, s) && ServesSubgraph(g, s, r)
    requires PlainNamespaces(g.nodes)
    ensures HoldsNodes(g, s.nodes, r.nodes)
    ensures HoldsFlows(s.upstream, r.upstream) && HoldsFlows(s.downstream, r.downstream)
  {
    SubgraphKnown(g, root, depth, s);
    SubgraphBuckets(g, root, depth, s);
    NodesServed(g, s.nodes, r.nodes);
    FlowsServed(s.upstream, r.upstream);
    FlowsServed(s.downstream, r.downstream);
  }

  lemma SubgraphBuckets(g: Graph, root: NodeId, depth: nat, s: SubgraphResult)
    requires Sound(g) && IsSubgraph(g, root, depth, s)
    ensures s.upstream.Keys <= g.nodes.Keys && s.downstream.Keys <= g.nodes.Keys
  {
    SubgraphKnown(g, root, depth, s);
    if root in g.nodes {
      var visited := Ball(Calls(g.downstream), root, depth);
      var tree :| SpanningTree(Calls(g.downstream), root, visited, tree) && Shows(g, root, visited, tree, s);
    }
  }
}
