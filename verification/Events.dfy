/** What one event and one pod message do, in the terms of the request and the
    message themselves. */
module Events {
  import opened Bags
  import opened Graph
  import opened Hosts
  import opened Ingestion
  import opened ArrivalOrder

  /** Some label after the first begins with "svc". */
  ghost predicate SvcLabel(labels: seq<string>) {
    exists i :: 1 <= i < |labels| && "svc" <= labels[i]
  }

  /** The service a bare host name stands for: addresses and single labels as
      they are, cluster names by their first two labels, all else external. */
  ghost predicate HostMeans(host: string, to: NodeId) {
    var labels := Split(host, '.');
    if |labels| == 1 || IsIpv4(host) then to.applicationName == host && to.namespace == "unknown"
    else if SvcLabel(labels) then to.applicationName == labels[0] && to.namespace == labels[1]
    else to.applicationName == host && to.namespace == "external"
  }

  /** A label that begins with "svc" shows as ".svc" in the name. */
  lemma SvcLabelOccurs(host: string)
    requires SvcLabel(Split(host, '.'))
    ensures Contains(host, ".svc")
  {
    var labels := Split(host, '.');
    var i :| 1 <= i < |labels| && "svc" <= labels[i];
    var k := PieceOccurs(host, '.', i);
    assert host[k..k + 4] == host[k..k + 1 + |labels[i]|][..4] == (['.'] + labels[i])[..4] == ".svc";
    assert OccursAt(host, ".svc", k);
  }

  lemma IndexOfBefore(s: string, c: char, k: nat)
    requires k < |s| && s[k] == c
    ensures IndexOf(s, c) <= k
  {
    var i := IndexOf(s, c);
    assert forall j :: 0 <= j < i ==> s[j] in s[..i];
  }

  lemma FirstLabel(rest: string)
    requires |rest| >= 3 && rest[0] == 's' && rest[1] == 'v' && rest[2] == 'c'
    ensures "svc" <= Split(rest, '.')[0]
  {
    SplitHead(rest, '.');
  }

  ghost predicate SvcAt(s: string, k: nat) {
    k + 4 <= |s| && s[k] == '.' && s[k + 1] == 's' && s[k + 2] == 'v' && s[k + 3] == 'c'
  }

  lemma SvcLater(first: string, labels: seq<string>)
    requires labels != [] && ("svc" <= labels[0] || SvcLabel(labels))
    ensures SvcLabel([first] + labels)
  {
    var all := [first] + labels;
    if "svc" <= labels[0] {
      assert all[1] == labels[0];
    } else {
      var j :| 1 <= j < |labels| && "svc" <= labels[j];
      assert all[j + 1] == labels[j];
    }
  }

  lemma {:induction false} SvcOccursInLabel(host: string, k: nat)
    requires SvcAt(host, k)
    ensures SvcLabel(Split(host, '.'))
    decreases |host|
  {
    var i := IndexOf(host, '.');
    IndexOfBefore(host, '.', k);
    var rest := host[i + 1..];
    if i == k {
      FirstLabel(rest);
    } else {
      assert SvcAt(rest, k - i - 1);
      SvcOccursInLabel(rest, k - i - 1);
    }
    SvcLater(host[..i], Split(rest, '.'));
  }

  lemma OccursSvcAt(s: string, k: nat)
    requires OccursAt(s, ".svc", k)
    ensures SvcAt(s, k)
  {
    var t := s[k..k + 4];
    assert t[0] == '.' && t[1] == 's' && t[2] == 'v' && t[3] == 'c';
  }

  /** The heuristic reads every port-free host by its labels. */
  lemma HostNamed(host: string)
    requires ':' !in host
    ensures HostMeans(host, ParseK8sHost(host))
  {
    assert StripPort(host) == host;
    SplitHasSeparator(host, '.');
    if SvcLabel(Split(host, '.')) {
      SvcLabelOccurs(host);
    } else if k: nat :| k <= |host| && OccursAt(host, ".svc", k) {
      OccursSvcAt(host, k);
      SvcOccursInLabel(host, k);
    }
  }

  lemma PortFree(host: string)
    ensures StripPort(host) == Split(host, ':')[0] && ':' !in Split(host, ':')[0]
  {
    SplitHead(host, ':');
  }

  lemma ContainsIff(s: string, t: string)
    ensures Contains(s, t) <==> exists a, b :: s == a + t + b
  {
    if i: nat :| i <= |s| && OccursAt(s, t, i) {
      assert s == s[..i] + t + s[i + |t|..];
    }
    if a, b :| s == a + t + b {
      assert OccursAt(s, t, |a|);
    }
  }

  /** The destination of an event: the route of the port-free host, else the
      identified pod, else what the host name says. */
  ghost predicate LeadsTo(c: Core, input: Input, to: NodeId) {
    var host, ip := Split(input.host, ':')[0], Ipv4Text(input.destination);
    if host in c.routes then to == c.routes[host]
    else if ip in c.pods && c.pods[ip].applicationName != "" then
      to.applicationName == c.pods[ip].applicationName && to.namespace == c.pods[ip].namespace
    else HostMeans(host, to)
  }

  lemma EventLeads(c: Core, input: Input)
    ensures var host := StripPort(input.host);
            LeadsTo(c, input, if host in c.routes then c.routes[host] else UnroutedDestination(c.pods, input))
  {
    PortFree(input.host);
    HostNamed(StripPort(input.host));
  }

  lemma LeadsToOne(c: Core, input: Input, to: NodeId, other: NodeId)
    requires LeadsTo(c, input, to) && LeadsTo(c, input, other)
    ensures to == other
  {
  }

  /** The source is identified and the path is no health check. */
  ghost predicate Accepts(c: Core, input: Input) {
    var ip := Ipv4Text(input.source);
    && !(exists a, b :: input.path == a + "/health" + b)
    && ip in c.pods && c.pods[ip].applicationName != ""
  }

  /** The key of an event that leads to `to`, written out. */
  ghost predicate IsKey(c: Core, input: Input, to: NodeId, key: string)
    requires Ipv4Text(input.source) in c.pods
  {
    var pod, ip := c.pods[Ipv4Text(input.source)], Ipv4Text(input.destination);
    var service := if ip in c.pods && c.pods[ip].serviceName != "" then c.pods[ip].serviceName else to.applicationName;
    key == pod.namespace + "/" + pod.serviceName + " -> " + to.namespace + "/" + service
  }

  /** One more listing at the end of a bucket, unless it is there. */
  ghost predicate Listed(before: Index, after: Index, id: NodeId, flow: Flow) {
    && after.Keys == before.Keys + {id}
    && after[id] == (if flow in Bucket(before, id) then Bucket(before, id) else Bucket(before, id) + [flow])
    && forall other :: other in before && other != id ==> after[other] == before[other]
  }

  /** The graph after a call: known nodes keep their data, new ones get the
      address they were seen at, and the flow is listed under both its ends. */
  ghost predicate CallAdded(before: Graph, after: Graph, flow: Flow, sourceIp: string, destinationIp: string) {
    && after.nodes.Keys == before.nodes.Keys + {flow.source, flow.destination}
    && (forall id :: id in before.nodes ==> after.nodes[id] == before.nodes[id])
    && (flow.source !in before.nodes ==> after.nodes[flow.source] == NodeData(sourceIp, []))
    && (flow.destination !in before.nodes && flow.destination != flow.source ==>
          after.nodes[flow.destination] == NodeData(destinationIp, []))
    && Listed(before.upstream, after.upstream, flow.destination, flow)
    && Listed(before.downstream, after.downstream, flow.source, flow)
  }

  lemma FilingLists(index: Index, id: NodeId, flow: Flow)
    ensures Listed(index, Filing(index, id, flow), id, flow)
  {
  }

  lemma CallAdds(g: Graph, flow: Flow, sourceIp: string, destinationIp: string)
    ensures CallAdded(g, WithCall(g, flow, sourceIp, destinationIp), flow, sourceIp, destinationIp)
  {
    FilingLists(g.upstream, flow.destination, flow);
    FilingLists(g.downstream, flow.source, flow);
  }

  /** A health check and an event of an unidentified source change nothing. */
  lemma EventIgnored(c: Core, input: Input)
    requires !Accepts(c, input)
    ensures RecordEvent(c, input) == c
  {
    ContainsIff(input.path, "/health");
  }

  lemma EventStep(c: Core, input: Input, to: NodeId, key: string)
    requires Accepts(c, input) && LeadsTo(c, input, to) && IsKey(c, input, to, key)
    ensures var pod := c.pods[Ipv4Text(input.source)];
            var flow := Flow(NodeId(pod.applicationName, pod.namespace), to, input.path, input.httpMethod);
            RecordEvent(c, input)
            == if key in c.seen then c
               else c.(seen := c.seen + {key},
                       graph := WithCall(c.graph, flow, Ipv4Text(input.source), Ipv4Text(input.destination)))
  {
    ContainsIff(input.path, "/health");
    EventLeads(c, input);
    var host := StripPort(input.host);
    LeadsToOne(c, input, to, if host in c.routes then c.routes[host] else UnroutedDestination(c.pods, input));
    assert KeyOf(c.pods, input, c.pods[Ipv4Text(input.source)], to) == key;
  }

  /** An accepted event claims the key written out of its names; under a new key
      the graph gains exactly the flow from the source's application to where
      the host, the routes and the pods lead, with the path and the method. */
  lemma EventRecorded(c: Core, input: Input, to: NodeId, key: string)
    requires Accepts(c, input) && LeadsTo(c, input, to) && IsKey(c, input, to, key)
    ensures var pod, d := c.pods[Ipv4Text(input.source)], RecordEvent(c, input);
            var flow := Flow(NodeId(pod.applicationName, pod.namespace), to, input.path, input.httpMethod);
            && d == c.(seen := c.seen + {key}, graph := d.graph)
            && (key in c.seen ==> d.graph == c.graph)
            && (key !in c.seen ==>
                  CallAdded(c.graph, d.graph, flow, Ipv4Text(input.source), Ipv4Text(input.destination)))
  {
    var pod := c.pods[Ipv4Text(input.source)];
    var flow := Flow(NodeId(pod.applicationName, pod.namespace), to, input.path, input.httpMethod);
    EventStep(c, input, to, key);
    if key in c.seen {
      assert c.seen + {key} == c.seen;
    } else {
      CallAdds(c.graph, flow, Ipv4Text(input.source), Ipv4Text(input.destination));
    }
  }

  /** In particular, under a new key exactly one pair joins the dependency
      relation of a sound graph. */
  lemma EventAddsPair(c: Core, input: Input, to: NodeId, key: string)
    requires Sound(c.graph) && Accepts(c, input) && LeadsTo(c, input, to) && IsKey(c, input, to, key) && key !in c.seen
    ensures var pod := c.pods[Ipv4Text(input.source)];
            Pairs(RecordEvent(c, input).graph)
            == Pairs(c.graph) + {(NodeId(pod.applicationName, pod.namespace), to)}
  {
    var pod := c.pods[Ipv4Text(input.source)];
    var flow := Flow(NodeId(pod.applicationName, pod.namespace), to, input.path, input.httpMethod);
    EventStep(c, input, to, key);
    CallPairs(c.graph, flow, Ipv4Text(input.source), Ipv4Text(input.destination));
  }

  /** A pod message caches its record as it is; with an application name, the raw
      node of its IP becomes that application in every dependency. */
  lemma PodRecorded(c: Core, message: PodMessage)
    requires Sound(c.graph)
    ensures var d, info := RecordPod(c, message), message.info;
            && d == c.(pods := c.pods[message.ip := info], graph := d.graph)
            && (info.applicationName == "" ==> d.graph == c.graph)
            && (info.applicationName != "" ==>
                  Pairs(d.graph) == RenamePairs(Pairs(c.graph), NodeId(message.ip, "unknown"),
                                                NodeId(info.applicationName, info.namespace)))
  {
    if message.info.applicationName != "" {
      HealedPairs(c.graph, message.ip, NodeId(message.info.applicationName, message.info.namespace));
    }
  }

  /** An event is appended to the list of its node, if the graph has the node,
      and nothing else changes. */
  lemma EventAttached(g: Graph, id: NodeId, event: K8sEvent)
    ensures var h := WithEvent(g, id, event);
            && h.upstream == g.upstream && h.downstream == g.downstream && h.nodes.Keys == g.nodes.Keys
            && (id in g.nodes ==>
                h.nodes[id].k8sEvents == g.nodes[id].k8sEvents + [event] && h.nodes[id].ip == g.nodes[id].ip)
            && forall other :: other in g.nodes && other != id ==> h.nodes[other] == g.nodes[other]
  {
  }
}
