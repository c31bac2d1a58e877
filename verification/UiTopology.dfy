/** The web UI's graph model: services, deduplicated connections, a root and
    layers, rebuilt from a topology response. */
module UiTopology {
  import opened Bags
  import opened Hosts
  import opened Lists
  import opened Response
  import opened UiLayers

  /** A response as received: the members of each JSON object in some order. */
  datatype UiData = UiData(nodes: seq<(string, NodeDto)>, upstream: seq<(string, seq<FlowDto>)>,
                           downstream: seq<(string, seq<FlowDto>)>)

  datatype ServiceNode = ServiceNode(id: string, name: string, namespace: string, domain: string, layer: nat)

  datatype Transformed = Transformed(services: seq<ServiceNode>, connections: seq<Connection>, root: Option<string>)

  type Names = map<string, string>

  /** Application names with the ids of their nodes; a later node wins. */
  function NamesOf(nodes: seq<(string, NodeDto)>): Names {
    if nodes == [] then map[]
    else
      var last := nodes[|nodes| - 1];
      NamesOf(nodes[..|nodes| - 1])[last.1.applicationName := last.0]
  }

  /** A flow with the side it was listed on. */
  type Item = (Kind, FlowDto)

  function Marked(kind: Kind, flows: seq<FlowDto>): seq<Item> {
    seq(|flows|, i requires 0 <= i < |flows| => (kind, flows[i]))
  }

  function ItemsOf(kind: Kind, lists: seq<(string, seq<FlowDto>)>): seq<Item> {
    if lists == [] then [] else ItemsOf(kind, lists[..|lists| - 1]) + Marked(kind, lists[|lists| - 1].1)
  }

  /** The connection a flow asks for, if both its ends are known. */
  function Wanted(names: Names, item: Item): Option<Connection> {
    var flow := item.1;
    if flow.sourceApplication in names && flow.destinationApplication in names
       && names[flow.sourceApplication] != "" && names[flow.destinationApplication] != "" then
      Some(Connection(names[flow.sourceApplication], names[flow.destinationApplication], item.0))
    else None
  }

  function SeenKey(c: Connection): string {
    (if c.kind.Upstream? then "upstream" else "downstream") + ":" + c.source + "→" + c.target
  }

  predicate Seen(connections: seq<Connection>, key: string) {
    exists i :: 0 <= i < |connections| && SeenKey(connections[i]) == key
  }

  /** The connections of a list of flows: each wanted one whose key is new. */
  function Connect(names: Names, items: seq<Item>): seq<Connection> {
    if items == [] then []
    else
      var front, c := Connect(names, items[..|items| - 1]), Wanted(names, items[|items| - 1]);
      if c.None? || Seen(front, SeenKey(c.value)) then front else front + [c.value]
  }

  function AllItems(data: UiData): seq<Item> { ItemsOf(Downstream, data.downstream) + ItemsOf(Upstream, data.upstream) }

  method ReadNames(nodes: seq<(string, NodeDto)>) returns (names: Names)
    ensures names == NamesOf(nodes)
  {
    names := map[];
    for i := 0 to |nodes|
      invariant names == NamesOf(nodes[..i])
    {
      assert nodes[..i + 1][..i] == nodes[..i];
      names := names[nodes[i].1.applicationName := nodes[i].0];
    }
    assert nodes[..|nodes|] == nodes;
  }

  ghost predicate SeenExactly(seen: set<string>, connections: seq<Connection>) {
    forall key :: key in seen <==> Seen(connections, key)
  }

  lemma SeenGrows(seen: set<string>, connections: seq<Connection>, c: Connection)
    requires SeenExactly(seen, connections)
    ensures SeenExactly(seen + {SeenKey(c)}, connections + [c])
  {
    var next := connections + [c];
    forall key ensures key in seen + {SeenKey(c)} <==> Seen(next, key) {
      if Seen(connections, key) {
        var i :| 0 <= i < |connections| && SeenKey(connections[i]) == key;
        assert SeenKey(next[i]) == key;
      }
      if key == SeenKey(c) {
        assert SeenKey(next[|connections|]) == key;
      }
      if Seen(next, key) {
        var i :| 0 <= i < |next| && SeenKey(next[i]) == key;
        assert i < |connections| ==> SeenKey(connections[i]) == key;
      }
    }
  }

  /** Adds the connection of one flow, unless an end is unknown or its key has
      been seen. */
  method AddConnection(names: Names, item: Item, connections: seq<Connection>, seen: set<string>,
                       ghost items: seq<Item>)
    returns (connections': seq<Connection>, seen': set<string>)
    requires connections == Connect(names, items) && SeenExactly(seen, connections)
    ensures connections' == Connect(names, items + [item]) && SeenExactly(seen', connections')
  {
    connections', seen' := connections, seen;
    assert (items + [item])[..|items|] == items;
    var flow := item.1;
    if flow.sourceApplication !in names || flow.destinationApplication !in names {
      return;
    }
    var source, target := names[flow.sourceApplication], names[flow.destinationApplication];
    if source == "" || target == "" {
      return;
    }
    var c := Connection(source, target, item.0);
    if SeenKey(c) in seen {
      return;
    }
    SeenGrows(seen, connections, c);
    seen' := seen + {SeenKey(c)};
    connections' := connections + [c];
  }

  method AddFlows(names: Names, kind: Kind, flows: seq<FlowDto>, before: seq<Connection>, seenBefore: set<string>,
                  ghost items: seq<Item>)
    returns (connections: seq<Connection>, seen: set<string>)
    requires before == Connect(names, items) && SeenExactly(seenBefore, before)
    ensures connections == Connect(names, items + Marked(kind, flows)) && SeenExactly(seen, connections)
  {
    connections, seen := before, seenBefore;
    assert items + Marked(kind, flows[..0]) == items;
    for j := 0 to |flows|
      invariant connections == Connect(names, items + Marked(kind, flows[..j])) && SeenExactly(seen, connections)
    {
      connections, seen := AddConnection(names, (kind, flows[j]), connections, seen, items + Marked(kind, flows[..j]));
      assert items + Marked(kind, flows[..j]) + [(kind, flows[j])] == items + Marked(kind, flows[..j + 1]);
    }
    assert flows[..|flows|] == flows;
  }

  lemma ItemsGrow(kind: Kind, lists: seq<(string, seq<FlowDto>)>, i: nat, items: seq<Item>)
    requires i < |lists|
    ensures items + ItemsOf(kind, lists[..i]) + Marked(kind, lists[i].1) == items + ItemsOf(kind, lists[..i + 1])
  {
    assert lists[..i + 1][..i] == lists[..i];
  }

  method AddLists(names: Names, kind: Kind, lists: seq<(string, seq<FlowDto>)>, before: seq<Connection>,
                  seenBefore: set<string>, ghost items: seq<Item>)
    returns (connections: seq<Connection>, seen: set<string>)
    requires before == Connect(names, items) && SeenExactly(seenBefore, before)
    ensures connections == Connect(names, items + ItemsOf(kind, lists)) && SeenExactly(seen, connections)
  {
    connections, seen := before, seenBefore;
    assert items + ItemsOf(kind, lists[..0]) == items;
    for i := 0 to |lists|
      invariant connections == Connect(names, items + ItemsOf(kind, lists[..i])) && SeenExactly(seen, connections)
    {
      ghost var prefix := ItemsOf(kind, lists[..i]);
      connections, seen := AddFlows(names, kind, lists[i].1, connections, seen, items + prefix);
      ItemsGrow(kind, lists, i, items);
    }
    assert lists[..|lists|] == lists;
  }

  lemma {:induction false} ConnectSound(names: Names, items: seq<Item>, c: Connection)
    requires c in Connect(names, items)
    ensures exists i :: 0 <= i < |items| && Wanted(names, items[i]) == Some(c)
  {
    var n := |items| - 1;
    if c in Connect(names, items[..n]) {
      ConnectSound(names, items[..n], c);
      var i :| 0 <= i < n && Wanted(names, items[..n][i]) == Some(c);
      assert Wanted(names, items[i]) == Some(c);
    } else {
      assert Wanted(names, items[n]) == Some(c);
    }
  }

  lemma {:induction false} ConnectComplete(names: Names, items: seq<Item>, i: nat)
    requires i < |items| && Wanted(names, items[i]).Some?
    ensures Seen(Connect(names, items), SeenKey(Wanted(names, items[i]).value))
  {
    var n := |items| - 1;
    var front, all := Connect(names, items[..n]), Connect(names, items);
    var key := SeenKey(Wanted(names, items[i]).value);
    if i < n {
      ConnectComplete(names, items[..n], i);
      var k :| 0 <= k < |front| && SeenKey(front[k]) == key;
      assert SeenKey(all[k]) == key;
    } else if !Seen(front, key) {
      assert SeenKey(all[|front|]) == key;
    }
  }

  /** No key, hence no connection, occurs twice. */
  lemma {:induction false} ConnectDistinct(names: Names, items: seq<Item>)
    ensures forall i, j :: 0 <= i < j < |Connect(names, items)| ==>
            SeenKey(Connect(names, items)[i]) != SeenKey(Connect(names, items)[j])
  {
    if items != [] {
      ConnectDistinct(names, items[..|items| - 1]);
    }
  }

  lemma SeenKeyInjective(c: Connection, d: Connection)
    requires SeenKey(c) == SeenKey(d) && '→' !in c.source && '→' !in d.source
    ensures c == d
  {
    var kc := if c.kind.Upstream? then "upstream" else "downstream";
    var kd := if d.kind.Upstream? then "upstream" else "downstream";
    assert SeenKey(c)[0] == kc[0] && SeenKey(d)[0] == kd[0];
    assert c.kind == d.kind;
    var a, b := kc + ":" + c.source, kc + ":" + d.source;
    assert SeenKey(c) == a + ['→'] + c.target && SeenKey(d) == b + ['→'] + d.target;
    SplitAtFirst(a, '→', c.target);
    SplitAtFirst(b, '→', d.target);
    assert c.source == a[|kc| + 1..] && d.source == b[|kc| + 1..];
  }

  /** Ids free of the arrow used in keys: deduplication loses no connection. */
  lemma ConnectExact(names: Names, items: seq<Item>, c: Connection)
    requires forall name :: name in names ==> '→' !in names[name]
    ensures c in Connect(names, items) <==> exists i :: 0 <= i < |items| && Wanted(names, items[i]) == Some(c)
  {
    if c in Connect(names, items) {
      ConnectSound(names, items, c);
    }
    if i :| 0 <= i < |items| && Wanted(names, items[i]) == Some(c) {
      ConnectComplete(names, items, i);
      var all := Connect(names, items);
      var k :| 0 <= k < |all| && SeenKey(all[k]) == SeenKey(c);
      ConnectSound(names, items, all[k]);
      SeenKeyInjective(all[k], c);
    }
  }

  /** The id a name stands for: that of the last node with the name. */
  ghost predicate NameMeans(nodes: seq<(string, NodeDto)>, name: string, id: string) {
    exists i :: && 0 <= i < |nodes| && nodes[i].1.applicationName == name && nodes[i].0 == id
                && forall j :: i < j < |nodes| ==> nodes[j].1.applicationName != name
  }

  lemma {:induction false} NamesLast(nodes: seq<(string, NodeDto)>, name: string, id: string)
    ensures (name in NamesOf(nodes) && NamesOf(nodes)[name] == id) <==> NameMeans(nodes, name, id)
  {
    if nodes != [] {
      var n := |nodes| - 1;
      var front := nodes[..n];
      NamesLast(front, name, id);
      if nodes[n].1.applicationName == name {
        assert NameMeans(nodes, name, nodes[n].0);
      } else {
        if i :| && 0 <= i < |front| && front[i].1.applicationName == name && front[i].0 == id
                && forall j :: i < j < |front| ==> front[j].1.applicationName != name {
          assert nodes[i] == front[i];
          assert forall j :: i < j < |nodes| ==> nodes[j].1.applicationName != name;
        }
        if i :| && 0 <= i < |nodes| && nodes[i].1.applicationName == name && nodes[i].0 == id
                && forall j :: i < j < |nodes| ==> nodes[j].1.applicationName != name {
          assert front[i] == nodes[i];
        }
      }
    }
  }

  /** A flow of the side that the connection's kind names asks for it. */
  ghost predicate Asks(data: UiData, list: (string, seq<FlowDto>), flow: FlowDto, c: Connection) {
    && list in (if c.kind == Downstream then data.downstream else data.upstream) && flow in list.1
    && NameMeans(data.nodes, flow.sourceApplication, c.source) && c.source != ""
    && NameMeans(data.nodes, flow.destinationApplication, c.target) && c.target != ""
  }

  lemma WantedIff(nodes: seq<(string, NodeDto)>, item: Item, c: Connection)
    ensures Wanted(NamesOf(nodes), item) == Some(c)
       <==> && item.0 == c.kind && c.source != "" && c.target != ""
            && NameMeans(nodes, item.1.sourceApplication, c.source)
            && NameMeans(nodes, item.1.destinationApplication, c.target)
  {
    NamesLast(nodes, item.1.sourceApplication, c.source);
    NamesLast(nodes, item.1.destinationApplication, c.target);
  }

  lemma {:induction false} ItemsMember(kind: Kind, lists: seq<(string, seq<FlowDto>)>, item: Item)
    ensures item in ItemsOf(kind, lists) <==> item.0 == kind && exists list :: list in lists && item.1 in list.1
  {
    if lists != [] {
      var n := |lists| - 1;
      assert lists == lists[..n] + [lists[n]];
      ItemsMember(kind, lists[..n], item);
      MarkedMember(kind, lists[n].1, item);
    }
  }

  lemma MarkedMember(kind: Kind, flows: seq<FlowDto>, item: Item)
    ensures item in Marked(kind, flows) <==> item.0 == kind && item.1 in flows
  {
    if item.0 == kind && item.1 in flows {
      var i :| 0 <= i < |flows| && flows[i] == item.1;
      assert Marked(kind, flows)[i] == item;
    }
  }

  /** Which connections the UI makes of what it received. */
  lemma ConnectionsExact(data: UiData, c: Connection)
    requires forall i :: 0 <= i < |data.nodes| ==> '→' !in data.nodes[i].0
    ensures c in Connect(NamesOf(data.nodes), AllItems(data)) <==> exists list, flow :: Asks(data, list, flow, c)
  {
    var names, items := NamesOf(data.nodes), AllItems(data);
    forall name | name in names ensures '→' !in names[name] {
      NamesLast(data.nodes, name, names[name]);
    }
    ConnectExact(names, items, c);
    if i :| 0 <= i < |items| && Wanted(names, items[i]) == Some(c) {
      AskedByItem(data, items[i], c);
    }
    if list, flow :| Asks(data, list, flow, c) {
      ItemAsks(data, list, flow, c);
      var i :| 0 <= i < |items| && items[i] == (c.kind, flow);
    }
  }

  lemma AskedByItem(data: UiData, item: Item, c: Connection)
    requires item in AllItems(data) && Wanted(NamesOf(data.nodes), item) == Some(c)
    ensures exists list, flow :: Asks(data, list, flow, c)
  {
    WantedIff(data.nodes, item, c);
    ItemsMember(Downstream, data.downstream, item);
    ItemsMember(Upstream, data.upstream, item);
    var list :| list in (if c.kind == Downstream then data.downstream else data.upstream) && item.1 in list.1;
    assert Asks(data, list, item.1, c);
  }

  lemma ItemAsks(data: UiData, list: (string, seq<FlowDto>), flow: FlowDto, c: Connection)
    requires Asks(data, list, flow, c)
    ensures (c.kind, flow) in AllItems(data) && Wanted(NamesOf(data.nodes), (c.kind, flow)) == Some(c)
  {
    WantedIff(data.nodes, (c.kind, flow), c);
    ItemsMember(Downstream, data.downstream, (c.kind, flow));
    ItemsMember(Upstream, data.upstream, (c.kind, flow));
  }

  /** Item `i` is the first whose connection has the key of `c`. */
  ghost predicate FirstAsk(names: Names, items: seq<Item>, i: int, c: Connection) {
    && 0 <= i < |items| && Wanted(names, items[i]) == Some(c)
    && forall j :: 0 <= j < i && Wanted(names, items[j]).Some? ==> SeenKey(Wanted(names, items[j]).value) != SeenKey(c)
  }

  lemma FirstAskFront(names: Names, items: seq<Item>, i: int, c: Connection)
    requires items != [] && i < |items| - 1
    ensures FirstAsk(names, items, i, c) <==> FirstAsk(names, items[..|items| - 1], i, c)
  {
    assert forall j :: 0 <= j < |items| - 1 ==> items[..|items| - 1][j] == items[j];
  }

  /** The connections come in the order in which the flows first ask for them. */
  lemma {:induction false} ConnectOrdered(names: Names, items: seq<Item>, p: nat) returns (i: nat, before: int)
    requires p < |Connect(names, items)|
    ensures FirstAsk(names, items, i, Connect(names, items)[p]) && before < i
    ensures p > 0 ==> FirstAsk(names, items, before, Connect(names, items)[p - 1])
  {
    var n := |items| - 1;
    var front := Connect(names, items[..n]);
    if p < |front| {
      i, before := ConnectOrdered(names, items[..n], p);
      FirstAskFront(names, items, i, front[p]);
      if p > 0 {
        FirstAskFront(names, items, before, front[p - 1]);
      }
    } else {
      i, before := n, -1;
      FirstAskLast(names, items);
      if p > 0 {
        var earlier;
        before, earlier := ConnectOrdered(names, items[..n], p - 1);
        FirstAskFront(names, items, before, front[p - 1]);
      }
    }
  }

  function FlowsIn(list: (string, seq<FlowDto>)): seq<FlowDto> { list.1 }

  lemma {:induction false} ItemsInOrder(kind: Kind, lists: seq<(string, seq<FlowDto>)>)
    ensures ItemsOf(kind, lists) == Marked(kind, Flatten(MapSeq(lists, FlowsIn)))
  {
    if lists != [] {
      var n := |lists| - 1;
      ItemsInOrder(kind, lists[..n]);
      var front := Flatten(MapSeq(lists[..n], FlowsIn));
      assert MapSeq(lists, FlowsIn)[..n] == MapSeq(lists[..n], FlowsIn);
      assert MapSeq(lists, FlowsIn)[n] == FlowsIn(lists[n]);
      MarkedConcat(kind, front, lists[n].1);
    }
  }

  lemma MarkedConcat(kind: Kind, a: seq<FlowDto>, b: seq<FlowDto>)
    ensures Marked(kind, a + b) == Marked(kind, a) + Marked(kind, b)
  {
  }

  /** The flows ask list by list, those of the downstream lists first. */
  lemma AllItemsInOrder(data: UiData)
    ensures AllItems(data) == Marked(Downstream, Flatten(MapSeq(data.downstream, FlowsIn)))
                            + Marked(Upstream, Flatten(MapSeq(data.upstream, FlowsIn)))
  {
    ItemsInOrder(Downstream, data.downstream);
    ItemsInOrder(Upstream, data.upstream);
  }

  lemma FirstAskLast(names: Names, items: seq<Item>)
    requires items != [] && Connect(names, items) != Connect(names, items[..|items| - 1])
    ensures FirstAsk(names, items, |items| - 1, Wanted(names, items[|items| - 1]).value)
  {
    var n := |items| - 1;
    forall j | 0 <= j < n && Wanted(names, items[j]).Some?
      ensures SeenKey(Wanted(names, items[j]).value) != SeenKey(Wanted(names, items[n]).value)
    {
      ConnectComplete(names, items[..n], j);
    }
  }

  /** Exactly which connections of one kind are taken for each other: the source
      of one is that of the other, an arrow and a text with which the other's
      target begins. */
  lemma SeenKeysCollideIff(c: Connection, d: Connection)
    requires c != d && c.kind == d.kind
    ensures SeenKey(c) == SeenKey(d)
       <==> || Overlaps(c.source, c.target, '→', d.source, d.target)
            || Overlaps(d.source, d.target, '→', c.source, c.target)
  {
    var kind := (if c.kind.Upstream? then "upstream" else "downstream") + ":";
    var left, right := c.source + ['→'] + c.target, d.source + ['→'] + d.target;
    assert SeenKey(c) == kind + left && SeenKey(d) == kind + right;
    assert (kind + left)[|kind|..] == left && (kind + right)[|kind|..] == right;
    SeparatedEqual(c.source, c.target, '→', d.source, d.target);
  }

  /** With such an id, a connection can be taken for another one and dropped. */
  lemma SeenKeysCollide()
    ensures SeenKey(Connection("n/a→n/b", "n/c", Downstream)) == SeenKey(Connection("n/a", "n/b→n/c", Downstream))
  {
  }
}
