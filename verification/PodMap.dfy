/** What a whole service-pod map does to the graph, in terms of its entries. */
module PodMap {
  import opened Bags
  import opened Graph
  import opened Ingestion
  import opened Resync
  import opened Replay
  import opened Server

  /** The entry lists the IP and has an application name. */
  ghost predicate NamedIn(entry: ServicePodEntry, ip: string) { ip in entry.podIps && entry.applicationName != "" }

  /** The entry gives its pods the name that marks `ip` as unresolved. */
  ghost predicate BlursTo(entry: ServicePodEntry, ip: string) {
    entry.podIps != [] && entry.applicationName == ip && entry.namespace == "unknown"
  }

  lemma EntryMessagesExact(entry: ServicePodEntry, m: PodMessage)
    ensures m in EntryMessages(entry, |entry.podIps|) <==> m.ip in entry.podIps && RecordOf(m.info, entry)
  {
    var messages := EntryMessages(entry, |entry.podIps|);
    if m.ip in entry.podIps && RecordOf(m.info, entry) {
      var i :| 0 <= i < |entry.podIps| && entry.podIps[i] == m.ip;
      assert messages[i] == m;
    }
  }

  lemma {:induction false} MessagesExact(entries: seq<ServicePodEntry>, m: PodMessage)
    ensures m in Messages(entries)
       <==> exists i :: 0 <= i < |entries| && m.ip in entries[i].podIps && RecordOf(m.info, entries[i])
  {
    if entries != [] {
      var n := |entries| - 1;
      var front := entries[..n];
      MessagesExact(front, m);
      EntryMessagesExact(entries[n], m);
      if m in Messages(front) {
        var i :| 0 <= i < |front| && m.ip in front[i].podIps && RecordOf(m.info, front[i]);
        assert entries[i] == front[i];
      }
      if i :| 0 <= i < |entries| && m.ip in entries[i].podIps && RecordOf(m.info, entries[i]) {
        assert i < n ==> front[i] == entries[i];
      }
    }
  }

  /** A pass clears the raw node of an IP exactly if it lists it with a name,
      as long as it resolves nothing into that raw id. */
  lemma {:induction false} PassClearsOne(g: Graph, messages: seq<PodMessage>, ip: string)
    requires forall i :: 0 <= i < |messages| ==> !ResolvesInto(messages[i], ip)
    ensures Stale(ip) in HealedAll(g, messages).nodes <==> Stale(ip) in g.nodes && !ListsNamed(messages, ip)
    decreases |messages|
  {
    if messages != [] {
      ListsTail(messages, ip);
      assert !ResolvesInto(messages[0], ip);
      PassClearsOne(HealedBy(g, messages[0]), messages[1..], ip);
    }
  }

  /** Raw nodes after a map: an IP's is gone exactly if some entry lists the IP
      with an application name, provided no entry is itself called after the IP
      in the namespace "unknown". */
  lemma MapClears(c: Core, entries: seq<ServicePodEntry>, ip: string)
    requires forall i :: 0 <= i < |entries| ==> !BlursTo(entries[i], ip)
    ensures NodeId(ip, "unknown") in RecordPods(c, Messages(entries)).graph.nodes
       <==> && NodeId(ip, "unknown") in c.graph.nodes
            && forall i :: 0 <= i < |entries| ==> !NamedIn(entries[i], ip)
  {
    var messages := Messages(entries);
    RecordPodsParts(c, messages);
    forall k | 0 <= k < |messages| ensures !ResolvesInto(messages[k], ip) {
      MessagesExact(entries, messages[k]);
      var i :| 0 <= i < |entries| && messages[k].ip in entries[i].podIps && RecordOf(messages[k].info, entries[i]);
      assert !BlursTo(entries[i], ip);
    }
    PassClearsOne(c.graph, messages, ip);
    MapNames(entries, ip);
  }

  lemma MapNames(entries: seq<ServicePodEntry>, ip: string)
    ensures ListsNamed(Messages(entries), ip) <==> exists i :: 0 <= i < |entries| && NamedIn(entries[i], ip)
  {
    var messages := Messages(entries);
    if ListsNamed(messages, ip) {
      var k :| 0 <= k < |messages| && messages[k].ip == ip && messages[k].info.applicationName != "";
      MessagesExact(entries, messages[k]);
      var i :| 0 <= i < |entries| && messages[k].ip in entries[i].podIps && RecordOf(messages[k].info, entries[i]);
      assert NamedIn(entries[i], ip);
    }
    if i :| 0 <= i < |entries| && NamedIn(entries[i], ip) {
      var e := entries[i];
      var m := PodMessage(ip, PodInfo(e.namespace, e.applicationName, e.serviceName, e.serviceType));
      assert RecordOf(m.info, entries[i]);
      MessagesExact(entries, m);
      var k :| 0 <= k < |messages| && messages[k] == m;
      assert messages[k].ip == ip;
    }
  }

  /** Where a map moves a node: a raw id goes to the application and namespace
      of the first entry that names its IP, everything else stays. */
  ghost predicate ResolvedTo(entries: seq<ServicePodEntry>, id: NodeId, to: NodeId) {
    if id.namespace == "unknown" && exists i :: 0 <= i < |entries| && NamedIn(entries[i], id.applicationName)
    then exists i :: FirstNaming(entries, id.applicationName, i)
                  && to == NodeId(entries[i].applicationName, entries[i].namespace)
    else to == id
  }

  ghost predicate FirstNaming(entries: seq<ServicePodEntry>, ip: string, i: int) {
    && 0 <= i < |entries| && NamedIn(entries[i], ip)
    && forall j :: 0 <= j < i ==> !NamedIn(entries[j], ip)
  }

  lemma {:induction false} FinalConcat(first: seq<PodMessage>, second: seq<PodMessage>, id: NodeId)
    ensures Final(first + second, id) == Final(second, Final(first, id))
    decreases |first|
  {
    if first == [] {
      assert first + second == second;
    } else {
      assert (first + second)[1..] == first[1..] + second;
      FinalConcat(first[1..], second, Moved(first[0], id));
    }
  }

  /** One entry, up to its `n`-th pod. */
  lemma {:induction false} FinalEntry(entry: ServicePodEntry, n: nat, id: NodeId)
    requires n <= |entry.podIps| && entry.namespace != "unknown"
    ensures Final(EntryMessages(entry, n), id)
         == if id.namespace == "unknown" && id.applicationName in entry.podIps[..n] && entry.applicationName != ""
            then NodeId(entry.applicationName, entry.namespace) else id
    decreases n
  {
    if n > 0 {
      var messages, last := EntryMessages(entry, n - 1), EntryMessages(entry, n)[n - 1];
      FinalEntry(entry, n - 1, id);
      assert EntryMessages(entry, n) == messages + [last];
      FinalConcat(messages, [last], id);
      assert [last][1..] == [];
      assert Final([last], Final(messages, id)) == Moved(last, Final(messages, id));
      assert entry.podIps[..n] == entry.podIps[..n - 1] + [entry.podIps[n - 1]];
      assert id == Stale(entry.podIps[n - 1])
        <==> id.namespace == "unknown" && id.applicationName == entry.podIps[n - 1];
    }
  }

  lemma {:induction false} FinalResolved(entries: seq<ServicePodEntry>, id: NodeId)
    requires forall i :: 0 <= i < |entries| ==> entries[i].namespace != "unknown"
    ensures ResolvedTo(entries, id, Final(Messages(entries), id))
  {
    if entries != [] {
      var n := |entries| - 1;
      var front, last := entries[..n], entries[n];
      var to := Final(Messages(front), id);
      FinalResolved(front, id);
      FinalConcat(Messages(front), EntryMessages(last, |last.podIps|), id);
      FinalEntry(last, |last.podIps|, to);
      assert last.podIps[..|last.podIps|] == last.podIps;
      ResolvedNext(front, last, id, to);
      assert entries == front + [last];
    }
  }

  lemma ResolvedNext(front: seq<ServicePodEntry>, last: ServicePodEntry, id: NodeId, to: NodeId)
    requires ResolvedTo(front, id, to) && forall i :: 0 <= i < |front| ==> front[i].namespace != "unknown"
    ensures ResolvedTo(front + [last], id,
                       if to.namespace == "unknown" && NamedIn(last, to.applicationName)
                       then NodeId(last.applicationName, last.namespace) else to)
  {
    var all, ip := front + [last], id.applicationName;
    if id.namespace == "unknown" {
      if exists i :: 0 <= i < |front| && NamedIn(front[i], ip) {
        var i :| FirstNaming(front, ip, i) && to == NodeId(front[i].applicationName, front[i].namespace);
        assert FirstNaming(all, ip, i) && NamedIn(all[i], ip);
      } else if NamedIn(last, ip) {
        assert FirstNaming(all, ip, |front|) && NamedIn(all[|front|], ip);
      } else {
        assert forall i :: 0 <= i < |all| ==> !NamedIn(all[i], ip);
      }
    }
  }

  ghost predicate FlowResolved(entries: seq<ServicePodEntry>, flow: Flow, moved: Flow) {
    && ResolvedTo(entries, flow.source, moved.source) && ResolvedTo(entries, flow.destination, moved.destination)
    && moved.path == flow.path && moved.httpMethod == flow.httpMethod
  }

  lemma ResolvedUnique(entries: seq<ServicePodEntry>, id: NodeId, to: NodeId, other: NodeId)
    requires ResolvedTo(entries, id, to) && ResolvedTo(entries, id, other)
    ensures to == other
  {
  }

  /** The graph after a map whose entries are in proper namespaces: its nodes
      and flows are the old ones with every raw id replaced by the name the
      first naming entry gives its IP. */
  lemma MapResolves(c: Core, entries: seq<ServicePodEntry>)
    requires Sound(c.graph) && forall i :: 0 <= i < |entries| ==> entries[i].namespace != "unknown"
    ensures var after := RecordPods(c, Messages(entries)).graph;
            && (forall to :: to in after.nodes <==> exists id :: id in c.graph.nodes && ResolvedTo(entries, id, to))
            && (forall moved :: moved in Flows(after)
                           <==> exists flow :: flow in Flows(c.graph) && FlowResolved(entries, flow, moved))
  {
    var messages := Messages(entries);
    RecordPodsParts(c, messages);
    PassMaps(c.graph, messages);
    NodesResolved(entries, c.graph.nodes.Keys);
    FlowsResolved(entries, Flows(c.graph));
  }

  /** A server that knows nothing but one raw node. */
  function OnlyRaw(ip: string): Core {
    INITIAL.(graph := Graph(map[NodeId(ip, "unknown") := NodeData(ip, [])], map[], map[]))
  }

  /** When a map is sure to clear the raw node of an IP, whatever the server
      holds: exactly if no raw id is moved to that of the IP in the end. */
  lemma MapClearsIff(entries: seq<ServicePodEntry>, ip: string)
    ensures (forall c: Core :: Sound(c.graph) ==>
                NodeId(ip, "unknown") !in RecordPods(c, Messages(entries)).graph.nodes)
       <==> (forall other :: Final(Messages(entries), NodeId(other, "unknown")) != NodeId(ip, "unknown"))
  {
    var messages, raw := Messages(entries), NodeId(ip, "unknown");
    forall c: Core | Sound(c.graph)
      ensures raw in RecordPods(c, messages).graph.nodes
         <==> exists id :: id in c.graph.nodes && Final(messages, id) == raw
    {
      RecordPodsParts(c, messages);
      PassMaps(c.graph, messages);
    }
    forall id: NodeId | id.namespace != "unknown" ensures Final(messages, id) == id {
      FinalKeepsKnown(messages, id);
    }
    if other :| Final(messages, NodeId(other, "unknown")) == raw {
      assert Sound(OnlyRaw(other).graph) && NodeId(other, "unknown") in OnlyRaw(other).graph.nodes;
      assert raw in RecordPods(OnlyRaw(other), messages).graph.nodes;
    }
    forall id: NodeId | id.namespace == "unknown" ensures id == NodeId(id.applicationName, "unknown") {
    }
  }

  lemma {:induction false} FinalKeepsKnown(messages: seq<PodMessage>, id: NodeId)
    requires id.namespace != "unknown"
    ensures Final(messages, id) == id
    decreases |messages|
  {
    if messages != [] {
      FinalKeepsKnown(messages[1..], id);
    }
  }

  lemma NodesResolved(entries: seq<ServicePodEntry>, ids: set<NodeId>)
    requires forall i :: 0 <= i < |entries| ==> entries[i].namespace != "unknown"
    ensures forall to :: to in FinalAll(Messages(entries), ids)
                    <==> exists id :: id in ids && ResolvedTo(entries, id, to)
  {
    var messages := Messages(entries);
    forall id ensures ResolvedTo(entries, id, Final(messages, id)) {
      FinalResolved(entries, id);
    }
    forall to ensures to in FinalAll(messages, ids) <==> exists id :: id in ids && ResolvedTo(entries, id, to) {
      if id :| id in ids && ResolvedTo(entries, id, to) {
        ResolvedUnique(entries, id, to, Final(messages, id));
      }
    }
  }

  lemma FlowsResolved(entries: seq<ServicePodEntry>, flows: multiset<Flow>)
    requires forall i :: 0 <= i < |entries| ==> entries[i].namespace != "unknown"
    ensures forall moved :: moved in Image(flows, FinalFlow(Messages(entries)))
                       <==> exists flow :: flow in flows && FlowResolved(entries, flow, moved)
  {
    var move := FinalFlow(Messages(entries));
    forall moved ensures moved in Image(flows, move)
                    <==> exists flow :: flow in flows && FlowResolved(entries, flow, moved) {
      if moved in Image(flows, move) {
        var flow := ImageMember(flows, move, moved);
        FinalResolved(entries, flow.source);
        FinalResolved(entries, flow.destination);
        assert FlowResolved(entries, flow, moved);
      }
      if flow :| flow in flows && FlowResolved(entries, flow, moved) {
        FinalResolved(entries, flow.source);
        FinalResolved(entries, flow.destination);
        ResolvedUnique(entries, flow.source, moved.source, move(flow).source);
        ResolvedUnique(entries, flow.destination, moved.destination, move(flow).destination);
        assert move(flow) == moved;
        ImageContains(flows, move, flow);
      }
    }
  }
}
