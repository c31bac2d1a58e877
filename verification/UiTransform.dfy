/** From a graph, through the served response, to the graph model of the web
    UI: no service and no dependency is lost, and the UI's layers are the
    depths at which the core's own search finds each service. */
module UiTransform {
  import opened Bags
  import opened Graph
  import opened Hosts
  import opened Paths
  import opened Response
  import opened UiLayers
  import opened UiTopology
  import opened UiRoot
  import Subgraph

  function Ids(nodes: seq<(string, NodeDto)>): seq<string> {
    seq(|nodes|, i requires 0 <= i < |nodes| => nodes[i].0)
  }

  function ToService(id: string, dto: NodeDto, layers: map<string, nat>): ServiceNode {
    ServiceNode(id, dto.applicationName, dto.namespace, dto.namespace, if id in layers then layers[id] else 1)
  }

  /** The layer of an id: its downstream distance from the root, and 1 when it
      cannot be reached. */
  ghost predicate HasLayer(edges: set<(string, string)>, root: Option<string>, id: string, layer: nat) {
    if root.Some? && Reachable(edges, root.value, id) then AtDistance(edges, root.value, id, layer) else layer == 1
  }

  ghost predicate IsTransformed(data: UiData, t: Transformed) {
    && t.connections == Connect(NamesOf(data.nodes), AllItems(data))
    && IsRoot(t.connections, Ids(data.nodes), t.root)
    && |t.services| == |data.nodes|
    && forall i :: 0 <= i < |data.nodes| ==>
         && t.services[i].id == data.nodes[i].0
         && t.services[i].name == data.nodes[i].1.applicationName
         && t.services[i].namespace == t.services[i].domain == data.nodes[i].1.namespace
         && HasLayer(Links(t.connections, Downstream), t.root, t.services[i].id, t.services[i].layer)
  }

  method TransformTopologyData(data: Option<UiData>) returns (t: Transformed)
    ensures data.None? ==> t == Transformed([], [], None)
    ensures data.Some? ==> IsTransformed(data.value, t)
  {
    if data.None? {
      return Transformed([], [], None);
    }
    var d := data.value;
    var names := ReadNames(d.nodes);
    var connections, seen := AddLists(names, Downstream, d.downstream, [], {}, []);
    assert [] + ItemsOf(Downstream, d.downstream) == ItemsOf(Downstream, d.downstream);
    connections, seen := AddLists(names, Upstream, d.upstream, connections, seen, ItemsOf(Downstream, d.downstream));
    var root := ChooseRoot(connections, Ids(d.nodes));
    var layers: map<string, nat> := map[];
    if root.Some? {
      var visits;
      layers, visits := AssignLayers(connections, root.value);
    }
    var services := seq(|d.nodes|, i requires 0 <= i < |d.nodes| => ToService(d.nodes[i].0, d.nodes[i].1, layers));
    t := Transformed(services, connections, root);
  }

  /** `entries` are the members of the JSON object `m`, in some order. */
  ghost predicate Members<V>(m: map<string, V>, entries: seq<(string, V)>) {
    && (forall i :: 0 <= i < |entries| ==> entries[i].0 in m && m[entries[i].0] == entries[i].1)
    && (forall i, j :: 0 <= i < j < |entries| ==> entries[i].0 != entries[j].0)
    && (forall key :: key in m ==> exists i :: 0 <= i < |entries| && entries[i].0 == key)
  }

  ghost predicate Receives(r: TopologyResponse, data: UiData) {
    Members(r.nodes, data.nodes) && Members(r.upstream, data.upstream) && Members(r.downstream, data.downstream)
  }

  /** Namespaces without '/', and no id with the arrow the UI puts into its keys. */
  ghost predicate Displayable(g: Graph) {
    && PlainNamespaces(g.nodes) && PlainNamespaces(g.upstream) && PlainNamespaces(g.downstream)
    && (forall id :: id in g.nodes ==> '→' !in KeyText(id))
  }

  /** No other node has this one's application name. */
  ghost predicate Unmistakable(g: Graph, id: NodeId) {
    forall other :: other in g.nodes && other.applicationName == id.applicationName ==> other == id
  }

  /** The response names the ends of flows by application only; no end shares
      its application name with another node. */
  ghost predicate EndsUnmistakable(g: Graph) {
    forall flow :: flow in Flows(g) ==> Unmistakable(g, flow.source) && Unmistakable(g, flow.destination)
  }

  /** `entries` are the entries of `m`, under their key texts. */
  ghost predicate Delivered<V(!new)>(m: map<NodeId, V>, entries: seq<(string, V)>) {
    && (forall id :: id in m ==> Delivers(m, entries, id))
    && (forall i :: 0 <= i < |entries| ==> Originates(m, entries[i]))
  }

  ghost predicate Delivers<V(!new)>(m: map<NodeId, V>, entries: seq<(string, V)>, id: NodeId)
    requires id in m
  {
    exists i :: 0 <= i < |entries| && entries[i] == (KeyText(id), m[id])
  }

  ghost predicate Originates<V(!new)>(m: map<NodeId, V>, entry: (string, V)) {
    exists id :: id in m && entry == (KeyText(id), m[id])
  }

  /** Nothing is lost on the way from the graph to the browser. */
  lemma AllDelivered<V(!new)>(m: map<NodeId, V>, r: map<string, V>, entries: seq<(string, V)>)
    requires PlainNamespaces(m) && Collects(m, r) && Members(r, entries)
    ensures Delivered(m, entries)
  {
    CollectsExact(m, r);
    forall id | id in m ensures Delivers(m, entries, id) {
      var i :| 0 <= i < |entries| && entries[i].0 == KeyText(id);
      assert entries[i] == (KeyText(id), m[id]);
    }
    forall i | 0 <= i < |entries| ensures Originates(m, entries[i]) {
      var key := entries[i].0;
      var id :| id in m && KeyText(id) == key;
      assert entries[i] == (KeyText(id), m[id]);
    }
  }

  lemma {:induction false} NamesOrigin(nodes: seq<(string, NodeDto)>, name: string) returns (i: nat)
    requires name in NamesOf(nodes)
    ensures i < |nodes| && nodes[i].1.applicationName == name && nodes[i].0 == NamesOf(nodes)[name]
  {
    var n := |nodes| - 1;
    if nodes[n].1.applicationName == name {
      i := n;
    } else {
      i := NamesOrigin(nodes[..n], name);
    }
  }

  lemma {:induction false} NamesHave(nodes: seq<(string, NodeDto)>, i: nat)
    requires i < |nodes|
    ensures nodes[i].1.applicationName in NamesOf(nodes)
  {
    var n := |nodes| - 1;
    if i < n {
      NamesHave(nodes[..n], i);
    }
  }

  /** Application names resolve to the keys of their nodes. */
  lemma NamesResolve(nodes: map<NodeId, NodeData>, entries: seq<(string, NodeDto)>, id: NodeId)
    requires Delivered(NodeDtos(nodes), entries) && id in nodes
    requires forall other :: other in nodes && other.applicationName == id.applicationName ==> other == id
    ensures id.applicationName in NamesOf(entries) && NamesOf(entries)[id.applicationName] == KeyText(id)
  {
    var dtos := NodeDtos(nodes);
    assert Delivers(dtos, entries, id);
    var i :| 0 <= i < |entries| && entries[i] == (KeyText(id), dtos[id]);
    NamesHave(entries, i);
    var j := NamesOrigin(entries, id.applicationName);
    assert Originates(dtos, entries[j]);
    var other :| other in dtos && entries[j] == (KeyText(other), dtos[other]);
    assert other == id;
  }

  lemma NamesAreKeys(nodes: map<NodeId, NodeData>, entries: seq<(string, NodeDto)>, name: string) returns (id: NodeId)
    requires Delivered(NodeDtos(nodes), entries) && name in NamesOf(entries)
    ensures id in nodes && id.applicationName == name && NamesOf(entries)[name] == KeyText(id)
  {
    var j := NamesOrigin(entries, name);
    assert Originates(NodeDtos(nodes), entries[j]);
    id :| id in NodeDtos(nodes) && entries[j] == (KeyText(id), NodeDtos(nodes)[id]);
  }

  lemma {:induction false} ItemsExact(kind: Kind, lists: seq<(string, seq<FlowDto>)>, item: Item)
    ensures item in ItemsOf(kind, lists) <==> item.0 == kind && exists i :: 0 <= i < |lists| && item.1 in lists[i].1
  {
    if lists != [] {
      var n := |lists| - 1;
      var front := lists[..n];
      ItemsExact(kind, front, item);
      assert item in Marked(kind, lists[n].1) <==> item.0 == kind && item.1 in lists[n].1 by {
        if item.0 == kind && item.1 in lists[n].1 {
          var j :| 0 <= j < |lists[n].1| && lists[n].1[j] == item.1;
          assert Marked(kind, lists[n].1)[j] == item;
        }
      }
      if i :| 0 <= i < |front| && item.1 in front[i].1 {
        assert item.1 in lists[i].1;
      }
      if i :| 0 <= i < |lists| && item.1 in lists[i].1 {
        assert i < n ==> item.1 in front[i].1;
      }
    }
  }

  /** The flows received for an index are those filed in it. */
  lemma FlowReceived(index: Index, lists: seq<(string, seq<FlowDto>)>, kind: Kind, flow: Flow)
    requires Delivered(FlowDtos(index), lists) && flow in Flat(index)
    ensures (kind, ToFlowDto(flow)) in ItemsOf(kind, lists)
  {
    var dtos := FlowDtos(index);
    FlatMember(index, flow);
    var id :| id in index && flow in index[id];
    var k :| 0 <= k < |index[id]| && index[id][k] == flow;
    assert dtos[id][k] == ToFlowDto(flow);
    assert Delivers(dtos, lists, id);
    var i :| 0 <= i < |lists| && lists[i] == (KeyText(id), dtos[id]);
    assert ToFlowDto(flow) in lists[i].1;
    ItemsExact(kind, lists, (kind, ToFlowDto(flow)));
  }

  lemma ReceivedFlow(index: Index, lists: seq<(string, seq<FlowDto>)>, kind: Kind, item: Item) returns (flow: Flow)
    requires Delivered(FlowDtos(index), lists) && item in ItemsOf(kind, lists)
    ensures flow in Flat(index) && item == (kind, ToFlowDto(flow))
  {
    var dtos := FlowDtos(index);
    ItemsExact(kind, lists, item);
    var i :| 0 <= i < |lists| && item.1 in lists[i].1;
    assert Originates(dtos, lists[i]);
    var id :| id in dtos && lists[i] == (KeyText(id), dtos[id]);
    var k :| 0 <= k < |dtos[id]| && dtos[id][k] == item.1;
    flow := index[id][k];
    assert flow in index[id];
    FlatMember(index, flow);
  }

  /** The browser holds the whole graph. */
  ghost predicate Shown(g: Graph, data: UiData) {
    && Delivered(NodeDtos(g.nodes), data.nodes)
    && Delivered(FlowDtos(g.upstream), data.upstream)
    && Delivered(FlowDtos(g.downstream), data.downstream)
  }

  lemma TopologyShown(g: Graph, r: TopologyResponse, data: UiData)
    requires Displayable(g) && ServesTopology(g, r) && Receives(r, data)
    ensures Shown(g, data)
  {
    assert PlainNamespaces(NodeDtos(g.nodes));
    assert PlainNamespaces(FlowDtos(g.upstream)) && PlainNamespaces(FlowDtos(g.downstream));
    AllDelivered(NodeDtos(g.nodes), r.nodes, data.nodes);
    AllDelivered(FlowDtos(g.upstream), r.upstream, data.upstream);
    AllDelivered(FlowDtos(g.downstream), r.downstream, data.downstream);
  }

  /** What the UI makes of a flow of the graph. */
  lemma WantedByFlow(g: Graph, data: UiData, kind: Kind, flow: Flow)
    requires Closed(g) && EndsUnmistakable(g) && Shown(g, data) && flow in Flows(g)
    ensures Wanted(NamesOf(data.nodes), (kind, ToFlowDto(flow)))
         == Some(Connection(KeyText(flow.source), KeyText(flow.destination), kind))
  {
    NamesResolve(g.nodes, data.nodes, flow.source);
    NamesResolve(g.nodes, data.nodes, flow.destination);
    assert '/' in KeyText(flow.source) && '/' in KeyText(flow.destination);
  }

  lemma ItemOfFlow(g: Graph, data: UiData, kind: Kind, flow: Flow)
    requires Sound(g) && Shown(g, data) && flow in Flows(g)
    ensures (kind, ToFlowDto(flow)) in AllItems(data)
  {
    if kind == Downstream {
      FlowReceived(g.downstream, data.downstream, Downstream, flow);
    } else {
      FlowReceived(g.upstream, data.upstream, Upstream, flow);
    }
  }

  lemma FlowOfItem(g: Graph, data: UiData, item: Item) returns (flow: Flow)
    requires Sound(g) && Shown(g, data) && item in AllItems(data)
    ensures flow in Flows(g) && item == (item.0, ToFlowDto(flow))
  {
    if item in ItemsOf(Downstream, data.downstream) {
      flow := ReceivedFlow(g.downstream, data.downstream, Downstream, item);
    } else {
      flow := ReceivedFlow(g.upstream, data.upstream, Upstream, item);
    }
  }

  lemma NamesArrowFree(g: Graph, data: UiData)
    requires Displayable(g) && Shown(g, data)
    ensures forall name :: name in NamesOf(data.nodes) ==> '→' !in NamesOf(data.nodes)[name]
  {
    forall name | name in NamesOf(data.nodes) ensures '→' !in NamesOf(data.nodes)[name] {
      var id := NamesAreKeys(g.nodes, data.nodes, name);
    }
  }

  ghost function KeyPairs(pairs: set<(NodeId, NodeId)>): set<(string, string)> {
    set p | p in pairs :: (KeyText(p.0), KeyText(p.1))
  }

  lemma LinkHasPair(g: Graph, data: UiData, kind: Kind, s: string, t: string)
    requires Sound(g) && EndsUnmistakable(g) && Shown(g, data)
    requires Connection(s, t, kind) in Connect(NamesOf(data.nodes), AllItems(data))
    ensures (s, t) in KeyPairs(Pairs(g))
  {
    var names, items := NamesOf(data.nodes), AllItems(data);
    ConnectSound(names, items, Connection(s, t, kind));
    var i :| 0 <= i < |items| && Wanted(names, items[i]) == Some(Connection(s, t, kind));
    var flow := FlowOfItem(g, data, items[i]);
    WantedByFlow(g, data, items[i].0, flow);
    var p := (flow.source, flow.destination);
    assert p in Pairs(g);
  }

  lemma PairHasLink(g: Graph, data: UiData, kind: Kind, flow: Flow)
    requires Sound(g) && Displayable(g) && EndsUnmistakable(g) && Shown(g, data) && flow in Flows(g)
    ensures Connection(KeyText(flow.source), KeyText(flow.destination), kind)
            in Connect(NamesOf(data.nodes), AllItems(data))
  {
    var names, items := NamesOf(data.nodes), AllItems(data);
    ItemOfFlow(g, data, kind, flow);
    WantedByFlow(g, data, kind, flow);
    NamesArrowFree(g, data);
    var i :| 0 <= i < |items| && items[i] == (kind, ToFlowDto(flow));
    ConnectExact(names, items, Connection(KeyText(flow.source), KeyText(flow.destination), kind));
  }

  /** The connections the UI makes of what it received. */
  function ConnectionsOf(data: UiData): seq<Connection> { Connect(NamesOf(data.nodes), AllItems(data)) }

  lemma LinksInPairs(g: Graph, data: UiData, kind: Kind)
    requires Sound(g) && EndsUnmistakable(g) && Shown(g, data)
    ensures Links(ConnectionsOf(data), kind) <= KeyPairs(Pairs(g))
  {
    forall e | e in Links(ConnectionsOf(data), kind) ensures e in KeyPairs(Pairs(g)) {
      assert (e.0, e.1) in Links(ConnectionsOf(data), kind);
      LinkHasPair(g, data, kind, e.0, e.1);
    }
  }

  lemma PairsInLinks(g: Graph, data: UiData, kind: Kind)
    requires Sound(g) && Displayable(g) && EndsUnmistakable(g) && Shown(g, data)
    ensures KeyPairs(Pairs(g)) <= Links(ConnectionsOf(data), kind)
  {
    forall e | e in KeyPairs(Pairs(g)) ensures e in Links(ConnectionsOf(data), kind) {
      var p :| p in Pairs(g) && e == (KeyText(p.0), KeyText(p.1));
      var flow :| flow in Flows(g) && p == (flow.source, flow.destination);
      PairHasLink(g, data, kind, flow);
    }
  }

  lemma LinksArePairs(g: Graph, r: TopologyResponse, data: UiData, kind: Kind)
    requires Sound(g) && Displayable(g) && EndsUnmistakable(g) && ServesTopology(g, r) && Receives(r, data)
    ensures Links(ConnectionsOf(data), kind) == KeyPairs(Pairs(g))
  {
    TopologyShown(g, r, data);
    LinksInPairs(g, data, kind);
    PairsInLinks(g, data, kind);
  }

  /** The edge relation survives the trip: on either side, the UI's connections
      are exactly the dependency pairs of the graph. */
  lemma EdgesPreserved(g: Graph, r: TopologyResponse, data: UiData, t: Transformed, kind: Kind)
    requires Sound(g) && Displayable(g) && EndsUnmistakable(g)
    requires ServesTopology(g, r) && Receives(r, data) && IsTransformed(data, t)
    ensures Links(t.connections, kind) == KeyPairs(Pairs(g))
  {
    LinksArePairs(g, r, data, kind);
  }

  /** A map can be listed, in some order. */
  lemma {:induction false} EntriesExist<V(!new)>(m: map<NodeId, V>) returns (pairs: seq<(NodeId, V)>)
    ensures Enumerates(m, pairs)
    decreases |m|
  {
    if m == map[] {
      pairs := [];
    } else {
      var id :| id in m;
      var rest := m - {id};
      pairs := EntriesExist(rest);
      var all := pairs + [(id, m[id])];
      forall other | other in m ensures exists i :: 0 <= i < |all| && all[i].0 == other {
        if other == id {
          assert all[|pairs|].0 == id;
        } else {
          assert other in rest;
          var i :| 0 <= i < |pairs| && pairs[i].0 == other;
          assert all[i].0 == other;
        }
      }
      pairs := all;
    }
  }

  lemma {:induction false} MembersExist<V(!new)>(m: map<string, V>) returns (entries: seq<(string, V)>)
    ensures Members(m, entries)
    decreases |m|
  {
    if m == map[] {
      entries := [];
    } else {
      var key :| key in m;
      entries := MembersExist(m - {key});
      entries := MembersAdded(m, key, entries);
    }
  }

  lemma MembersAdded<V(!new)>(m: map<string, V>, key: string, entries: seq<(string, V)>) returns (all: seq<(string, V)>)
    requires key in m && Members(m - {key}, entries)
    ensures Members(m, all) && all == entries + [(key, m[key])]
  {
    all := entries + [(key, m[key])];
    forall other | other in m ensures exists i :: 0 <= i < |all| && all[i].0 == other {
      if other == key {
        assert all[|entries|].0 == key;
      } else {
        assert other in m - {key};
        var i :| 0 <= i < |entries| && entries[i].0 == other;
        assert all[i].0 == other;
      }
    }
  }

  lemma ResponseExists(g: Graph) returns (r: TopologyResponse)
    ensures ServesTopology(g, r)
  {
    var nodes := EntriesExist(NodeDtos(g.nodes));
    var upstream := EntriesExist(FlowDtos(g.upstream));
    var downstream := EntriesExist(FlowDtos(g.downstream));
    r := TopologyResponse(Collected(nodes), Collected(upstream), Collected(downstream));
  }

  /** The response may reach the UI with any one node listed last. */
  lemma ListedLast(g: Graph, last: NodeId) returns (r: TopologyResponse, data: UiData)
    requires last in g.nodes && PlainNamespaces(g.nodes)
    ensures ServesTopology(g, r) && Receives(r, data)
    ensures last.applicationName in NamesOf(data.nodes) && NamesOf(data.nodes)[last.applicationName] == KeyText(last)
  {
    r := ResponseExists(g);
    CollectsExact(NodeDtos(g.nodes), r.nodes);
    var key := KeyText(last);
    assert last in NodeDtos(g.nodes);
    var front := MembersExist(r.nodes - {key});
    var nodes := MembersAdded(r.nodes, key, front);
    var upstream := MembersExist(r.upstream);
    var downstream := MembersExist(r.downstream);
    data := UiData(nodes, upstream, downstream);
    assert nodes[..|front|] == front;
  }

  /** A node whose application name the UI takes for another's ends no
      connection. */
  lemma MistakenEndsNone(g: Graph, data: UiData, id: NodeId, c: Connection)
    requires PlainNamespaces(g.nodes) && Delivered(NodeDtos(g.nodes), data.nodes) && id in g.nodes
    requires id.applicationName in NamesOf(data.nodes) && NamesOf(data.nodes)[id.applicationName] != KeyText(id)
    requires c in ConnectionsOf(data)
    ensures c.source != KeyText(id) && c.target != KeyText(id)
  {
    var names, items := NamesOf(data.nodes), AllItems(data);
    ConnectSound(names, items, c);
    var i :| 0 <= i < |items| && Wanted(names, items[i]) == Some(c);
    var source := NamesAreKeys(g.nodes, data.nodes, items[i].1.sourceApplication);
    var target := NamesAreKeys(g.nodes, data.nodes, items[i].1.destinationApplication);
    if c.source == KeyText(id) {
      KeyTextInjective(source, id);
    }
    if c.target == KeyText(id) {
      KeyTextInjective(target, id);
    }
  }

  lemma MistakenEdgeLost(g: Graph, flow: Flow, id: NodeId, kind: Kind) returns (r: TopologyResponse, data: UiData)
    requires Sound(g) && Displayable(g) && flow in Flows(g) && (id == flow.source || id == flow.destination)
    requires !Unmistakable(g, id)
    ensures ServesTopology(g, r) && Receives(r, data)
    ensures (KeyText(flow.source), KeyText(flow.destination)) !in Links(ConnectionsOf(data), kind)
  {
    var other :| other in g.nodes && other.applicationName == id.applicationName && other != id;
    r, data := ListedLast(g, other);
    TopologyShown(g, r, data);
    if KeyText(other) == KeyText(id) {
      KeyTextInjective(other, id);
    }
    if (KeyText(flow.source), KeyText(flow.destination)) in Links(ConnectionsOf(data), kind) {
      MistakenEndsNone(g, data, id, Connection(KeyText(flow.source), KeyText(flow.destination), kind));
    }
  }

  /** The UI's connections are the graph's dependencies, in whatever order the
      response lists them, if and only if no end of a flow shares its application
      name with another node. */
  lemma EdgesPreservedIff(g: Graph, kind: Kind)
    requires Sound(g) && Displayable(g)
    ensures EndsUnmistakable(g) <==>
              forall r, data :: ServesTopology(g, r) && Receives(r, data) ==>
                Links(ConnectionsOf(data), kind) == KeyPairs(Pairs(g))
  {
    if EndsUnmistakable(g) {
      forall r, data | ServesTopology(g, r) && Receives(r, data)
        ensures Links(ConnectionsOf(data), kind) == KeyPairs(Pairs(g))
      {
        LinksArePairs(g, r, data, kind);
      }
    } else {
      var flow :| flow in Flows(g) && !(Unmistakable(g, flow.source) && Unmistakable(g, flow.destination));
      var id := if Unmistakable(g, flow.source) then flow.destination else flow.source;
      var r, data := MistakenEdgeLost(g, flow, id, kind);
      var p := (flow.source, flow.destination);
      assert p in Pairs(g) && (KeyText(p.0), KeyText(p.1)) in KeyPairs(Pairs(g));
      assert ServesTopology(g, r) && Receives(r, data);
    }
  }

  /** The UI shows a service for the node. */
  ghost predicate ShowsNode(services: seq<ServiceNode>, id: NodeId) {
    exists i :: 0 <= i < |services| && services[i].id == KeyText(id)
             && services[i].name == id.applicationName && services[i].namespace == id.namespace
  }

  /** No node is dropped, duplicated or invented. */
  lemma NodesPreserved(g: Graph, r: TopologyResponse, data: UiData, t: Transformed)
    requires Displayable(g) && ServesTopology(g, r) && Receives(r, data) && IsTransformed(data, t)
    ensures forall i, j :: 0 <= i < j < |t.services| ==> t.services[i].id != t.services[j].id
    ensures forall id :: id in g.nodes ==> ShowsNode(t.services, id)
    ensures forall i :: 0 <= i < |t.services| ==> exists id :: id in g.nodes && t.services[i].id == KeyText(id)
  {
    TopologyShown(g, r, data);
    var dtos := NodeDtos(g.nodes);
    forall i, j | 0 <= i < j < |t.services| ensures t.services[i].id != t.services[j].id {
      assert data.nodes[i].0 != data.nodes[j].0;
    }
    forall id | id in g.nodes ensures ShowsNode(t.services, id) {
      assert Delivers(dtos, data.nodes, id);
      var i :| 0 <= i < |data.nodes| && data.nodes[i] == (KeyText(id), dtos[id]);
      assert t.services[i].id == KeyText(id);
    }
    forall i | 0 <= i < |t.services| ensures exists id :: id in g.nodes && t.services[i].id == KeyText(id) {
      assert Originates(dtos, data.nodes[i]);
      var id :| id in dtos && data.nodes[i] == (KeyText(id), dtos[id]);
    }
  }

  lemma CallsArePairs(g: Graph)
    requires Sound(g)
    ensures Subgraph.Calls(g.downstream) == Pairs(g)
  {
    forall e ensures e in Subgraph.Calls(g.downstream) <==> e in Pairs(g) {
      assert e == (e.0, e.1);
      Subgraph.CallsOfSound(g, e.0, e.1);
    }
  }

  lemma GraphRelabelled(g: Graph, root: NodeId)
    requires Sound(g) && Displayable(g) && root in g.nodes
    ensures Relabels(Pairs(g), root, KeyPairs(Pairs(g)), KeyText, g.nodes.Keys)
  {
    forall e | e in Pairs(g) ensures e.0 in g.nodes.Keys && e.1 in g.nodes.Keys {
      var flow :| flow in Flows(g) && e == (flow.source, flow.destination);
    }
    forall u, v | u in g.nodes.Keys && v in g.nodes.Keys && KeyText(u) == KeyText(v) ensures u == v {
      KeyTextInjective(u, v);
    }
  }

  /** A service has a layer of at most `depth` in the UI's queue search exactly
      when the core's level-by-level search visits it at that depth. */
  lemma LayerIsDepth(g: Graph, r: TopologyResponse, data: UiData, t: Transformed, layers: map<string, nat>,
                     root: NodeId, v: NodeId, depth: nat)
    requires Sound(g) && Displayable(g) && EndsUnmistakable(g)
    requires ServesTopology(g, r) && Receives(r, data) && IsTransformed(data, t)
    requires root in g.nodes && v in g.nodes
    requires forall id :: id in layers <==> Reachable(Links(t.connections, Downstream), KeyText(root), id)
    requires forall id :: id in layers ==> AtDistance(Links(t.connections, Downstream), KeyText(root), id, layers[id])
    ensures (KeyText(v) in layers && layers[KeyText(v)] <= depth)
       <==> v in Ball(Subgraph.Calls(g.downstream), root, depth)
  {
    EdgesPreserved(g, r, data, t, Downstream);
    CallsArePairs(g);
    GraphRelabelled(g, root);
    BallRelabelled(Pairs(g), root, KeyPairs(Pairs(g)), KeyText, g.nodes.Keys, depth, v);
    if KeyText(v) in layers {
      DistanceBound(KeyPairs(Pairs(g)), KeyText(root), KeyText(v), layers[KeyText(v)], depth);
    }
  }
}
