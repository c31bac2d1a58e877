/** What the web UI draws of the services it was given: all of them, because
    the layers of its own breadth-first search leave no gap. */
module UiDrawing {
  import opened Graph
  import opened Hosts
  import opened Paths
  import opened Response
  import opened UiLayers
  import opened UiTopology
  import opened UiRoot
  import opened UiTransform
  import opened UiLayout

  /** Connections join listed nodes. */
  lemma EndsListed(data: UiData, c: Connection)
    requires c in Connect(NamesOf(data.nodes), AllItems(data))
    ensures c.source in Ids(data.nodes) && c.target in Ids(data.nodes)
  {
    var names, items := NamesOf(data.nodes), AllItems(data);
    ConnectSound(names, items, c);
    var i :| 0 <= i < |items| && Wanted(names, items[i]) == Some(c);
    var j := NamesOrigin(data.nodes, items[i].1.sourceApplication);
    assert Ids(data.nodes)[j] == c.source;
    var k := NamesOrigin(data.nodes, items[i].1.destinationApplication);
    assert Ids(data.nodes)[k] == c.target;
  }

  /** The chosen root is one of the nodes, unless there are none. */
  lemma RootListed(data: UiData, t: Transformed)
    requires IsTransformed(data, t)
    ensures if data.nodes == [] then t.root.None? else t.root.Some? && t.root.value in Ids(data.nodes)
  {
    if c :| c in t.connections && c.kind == Downstream {
      EndsListed(data, c);
      var i :| DownstreamAt(t.connections, i, t.root.value);
      assert t.connections[i] in t.connections;
      EndsListed(data, t.connections[i]);
    }
  }

  lemma ServiceListed(data: UiData, t: Transformed, id: string) returns (s: ServiceNode)
    requires IsTransformed(data, t) && id in Ids(data.nodes)
    ensures s in t.services && s.id == id && HasLayer(Links(t.connections, Downstream), t.root, id, s.layer)
  {
    var i :| 0 <= i < |data.nodes| && Ids(data.nodes)[i] == id;
    s := t.services[i];
  }

  lemma ServiceLayer(data: UiData, t: Transformed, s: ServiceNode)
    requires IsTransformed(data, t) && s in t.services
    ensures s.id in Ids(data.nodes) && HasLayer(Links(t.connections, Downstream), t.root, s.id, s.layer)
  {
    var i :| 0 <= i < |t.services| && t.services[i] == s;
    assert Ids(data.nodes)[i] == s.id;
  }

  /** Layer 0 is the root's alone. */
  lemma LayerZero(edges: set<(string, string)>, root: string, id: string, layer: nat)
    requires HasLayer(edges, Some(root), id, layer)
    ensures layer == 0 <==> id == root
  {
    if id == root {
      assert root in Ball(edges, root, 0);
      DistanceUnique(edges, root, id, layer, 0);
    }
  }

  /** A service on a layer beyond the first is called by one on the layer below. */
  lemma LayerBelow(data: UiData, t: Transformed, s: ServiceNode) returns (caller: ServiceNode)
    requires IsTransformed(data, t) && s in t.services && s.layer > 1
    ensures caller in t.services && caller.layer == s.layer - 1
  {
    var edges := Links(t.connections, Downstream);
    ServiceLayer(data, t, s);
    var id := NearerPredecessor(edges, t.root.value, s.id, s.layer);
    EndsListed(data, Connection(id, s.id, Downstream));
    caller := ServiceListed(data, t, id);
    assert id in Ball(edges, t.root.value, s.layer - 1);
    DistanceUnique(edges, t.root.value, id, s.layer - 1, caller.layer);
  }

  ghost function UpTo(n: nat): (r: set<nat>)
    ensures forall k :: k in r <==> 1 <= k <= n
  {
    if n == 0 then {} else UpTo(n - 1) + {n}
  }

  lemma {:induction false} UpToSize(n: nat)
    ensures |UpTo(n)| == n
  {
    if n > 0 {
      UpToSize(n - 1);
    }
  }

  ghost predicate DownClosed(layers: set<nat>) {
    forall k :: k in layers && k > 1 ==> k - 1 in layers
  }

  lemma {:induction false} DownTo(layers: set<nat>, k: nat, n: nat)
    requires DownClosed(layers) && n in layers && 1 <= k <= n
    ensures k in layers
    decreases n
  {
    if k < n {
      DownTo(layers, k, n - 1);
    }
  }

  lemma NoGap(layers: set<nat>, n: nat)
    requires DownClosed(layers) && n in layers
    ensures n <= |layers|
  {
    UpToSize(n);
    forall k | k in UpTo(n) ensures k in layers {
      DownTo(layers, k, n);
    }
    SubsetSize(UpTo(n), layers);
  }

  ghost predicate DistinctIds(nodes: seq<(string, NodeDto)>) {
    forall i, j :: 0 <= i < j < |nodes| ==> nodes[i].0 != nodes[j].0
  }

  lemma SameIdSameService(data: UiData, t: Transformed, i: nat, j: nat)
    requires IsTransformed(data, t) && DistinctIds(data.nodes)
    requires i < |t.services| && j < |t.services| && t.services[i].id == t.services[j].id
    ensures i == j
  {
    assert data.nodes[i].0 == data.nodes[j].0;
  }

  lemma CountOne<T>(s: seq<T>, i: nat)
    requires i < |s| && forall j :: 0 <= j < |s| && s[j] == s[i] ==> j == i
    ensures multiset(s)[s[i]] == 1
  {
    var x := s[i];
    assert s == s[..i] + [x] + s[i + 1..];
    assert x !in s[..i] && x !in s[i + 1..];
    assert multiset(s) == multiset(s[..i]) + multiset{x} + multiset(s[i + 1..]);
  }

  lemma OnlyRoot(data: UiData, t: Transformed, c: ServiceNode, s: ServiceNode)
    requires IsTransformed(data, t) && DistinctIds(data.nodes) && t.root == Some(c.id)
    requires c in t.services && s in t.services && s.layer == 0
    ensures s == c
  {
    ServiceLayer(data, t, s);
    LayerZero(Links(t.connections, Downstream), c.id, s.id, 0);
    var i :| 0 <= i < |t.services| && t.services[i] == c;
    var j :| 0 <= j < |t.services| && t.services[j] == s;
    SameIdSameService(data, t, i, j);
  }

  lemma CenterAlone(data: UiData, t: Transformed, c: ServiceNode)
    requires IsTransformed(data, t) && DistinctIds(data.nodes) && t.root == Some(c.id) && c in t.services
    ensures c.layer == 0 && OnLayer(t.services, 0) == [c]
  {
    var edges := Links(t.connections, Downstream);
    var i :| 0 <= i < |t.services| && t.services[i] == c;
    ServiceLayer(data, t, c);
    LayerZero(edges, c.id, c.id, c.layer);
    forall s ensures multiset(OnLayer(t.services, 0))[s] == multiset{c}[s] {
      OnLayerCount(t.services, 0, s);
      if s == c {
        forall j | 0 <= j < |t.services| && t.services[j] == c ensures j == i {
          SameIdSameService(data, t, i, j);
        }
        CountOne(t.services, i);
      } else if s in t.services && s.layer == 0 {
        OnlyRoot(data, t, c, s);
        assert false;
      }
    }
    OneElement(OnLayer(t.services, 0), c);
  }

  lemma CenterExists(data: UiData, t: Transformed, center: Option<ServiceNode>)
    requires IsTransformed(data, t) && IsCenter(t.services, t.root, center) && data.nodes != []
    ensures center.Some? && center.value in t.services && t.root == Some(center.value.id)
  {
    RootListed(data, t);
    var s := ServiceListed(data, t, t.root.value);
    var i :| 0 <= i < |t.services| && t.services[i] == s;
    assert IsRootAt(t.services, t.root, i);
  }

  lemma OuterLayer(data: UiData, t: Transformed, c: ServiceNode, layer: nat)
    requires IsTransformed(data, t) && t.root == Some(c.id) && c in t.services && c.layer == 0
    requires layer in OuterLayers(t.services, Some(c))
    ensures layer > 0 && (layer > 1 ==> layer - 1 in OuterLayers(t.services, Some(c)))
  {
    var s :| s in t.services && s.layer != c.layer && s.layer == layer;
    if layer > 1 {
      var caller := LayerBelow(data, t, s);
      assert caller.layer in OuterLayers(t.services, Some(c));
    }
  }

  /** The layers of transformed data are contiguous. */
  lemma TransformedContiguous(data: UiData, t: Transformed, center: Option<ServiceNode>)
    requires IsTransformed(data, t) && DistinctIds(data.nodes) && IsCenter(t.services, t.root, center)
    ensures Contiguous(t.services, center)
  {
    if data.nodes == [] {
      RootListed(data, t);
      assert t.services == [] && center.None?;
    } else {
      CenterExists(data, t, center);
      var c := center.value;
      CenterAlone(data, t, c);
      var outer := OuterLayers(t.services, center);
      forall layer | layer in outer ensures layer > 0 && (layer > 1 ==> layer - 1 in outer) {
        OuterLayer(data, t, c, layer);
      }
      forall layer | layer in outer ensures 1 <= layer <= |outer| {
        NoGap(outer, layer);
      }
    }
  }

  /** Everything the UI was sent is drawn, once. */
  method DrawTopology(data: UiData, arrange: seq<ServiceNode> -> seq<ServiceNode>, pi: real)
    returns (t: Transformed, center: Option<ServiceNode>, around: seq<Placed>, rings: seq<Ring>, base: real)
    requires 0.0 < pi <= 4.0 && DistinctIds(data.nodes) && forall s :: multiset(arrange(s)) == multiset(s)
    ensures IsTransformed(data, t) && IsCenter(t.services, t.root, center)
    ensures multiset(AllServices(center, around)) == multiset(t.services)
    ensures Around(around, rings, base, |OuterLayers(t.services, center)|, pi)
  {
    t := TransformTopologyData(Some(data));
    ghost var bands;
    center, around, rings, base, bands := ConvertToFlowData(t.services, t.root, arrange, pi);
    TransformedContiguous(data, t, center);
    LayoutComplete(t.services, center, around);
  }

  /** From the graph to the screen: with the drawn nodes a permutation of the
      services, every node of the graph is drawn, exactly once. */
  lemma NodeDrawnOnce(g: Graph, r: TopologyResponse, data: UiData, t: Transformed, drawn: seq<ServiceNode>, id: NodeId)
    returns (s: ServiceNode)
    requires Displayable(g) && ServesTopology(g, r) && Receives(r, data) && IsTransformed(data, t)
    requires multiset(drawn) == multiset(t.services) && id in g.nodes
    ensures s.id == KeyText(id) && s.name == id.applicationName && multiset(drawn)[s] == 1
    ensures forall other :: other in drawn && other.id == s.id ==> other == s
  {
    NodesPreserved(g, r, data, t);
    assert ShowsNode(t.services, id);
    s := ListedOnce(t.services, drawn, KeyText(id), id.applicationName);
  }

  lemma ListedOnce(services: seq<ServiceNode>, drawn: seq<ServiceNode>, id: string, name: string)
    returns (s: ServiceNode)
    requires forall i, j :: 0 <= i < j < |services| ==> services[i].id != services[j].id
    requires exists i :: 0 <= i < |services| && services[i].id == id && services[i].name == name
    requires multiset(drawn) == multiset(services)
    ensures s.id == id && s.name == name && multiset(drawn)[s] == 1
    ensures forall other :: other in drawn && other.id == id ==> other == s
  {
    var i :| 0 <= i < |services| && services[i].id == id && services[i].name == name;
    s := services[i];
    CountOne(services, i);
    forall other | other in drawn && other.id == id ensures other == s {
      assert other in multiset(drawn);
      assert other in services;
    }
  }
}
