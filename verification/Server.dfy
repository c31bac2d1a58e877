/** The core server object: the caches, the claimed edge keys and the shared
    topology, updated in place by its handlers. */
module Server {
  import opened Graph
  import opened Hosts
  import opened Ingestion
  import opened Envoy
  import opened Resync
  import Topo = Topology

  datatype ServicePodEntry = ServicePodEntry(applicationName: string, serviceName: string, namespace: string,
                                             serviceType: string, podIps: seq<string>)

  function EntryMessages(entry: ServicePodEntry, n: nat): seq<PodMessage>
    requires n <= |entry.podIps|
  {
    seq(n, i requires 0 <= i < n =>
      PodMessage(entry.podIps[i],
                 PodInfo(entry.namespace, entry.applicationName, entry.serviceName, entry.serviceType)))
  }

  /** The pod messages of a service-pod map, entry by entry. */
  function Messages(entries: seq<ServicePodEntry>): seq<PodMessage> {
    if entries == [] then []
    else
      var last := entries[|entries| - 1];
      Messages(entries[..|entries| - 1]) + EntryMessages(last, |last.podIps|)
  }

  ghost predicate ListedIn(entry: ServicePodEntry, ip: string) { ip in entry.podIps }

  /** Entry `i` lists the IP, and no later one does. */
  ghost predicate LastListing(entries: seq<ServicePodEntry>, ip: string, i: int) {
    0 <= i < |entries| && ListedIn(entries[i], ip) && forall j :: i < j < |entries| ==> !ListedIn(entries[j], ip)
  }

  ghost predicate Listed(entries: seq<ServicePodEntry>, ip: string) {
    exists i :: 0 <= i < |entries| && ListedIn(entries[i], ip)
  }

  /** The record is the one the entry gives its pods. */
  ghost predicate RecordOf(info: PodInfo, entry: ServicePodEntry) {
    && info.namespace == entry.namespace && info.applicationName == entry.applicationName
    && info.serviceName == entry.serviceName && info.serviceType == entry.serviceType
  }

  /** What a service-pod map does to the pod cache: every listed IP gets the
      record of the last entry that lists it, all others keep theirs. */
  ghost predicate CacheUpdated(before: map<string, PodInfo>, entries: seq<ServicePodEntry>,
                               after: map<string, PodInfo>) {
    && (forall ip :: ip in after <==> ip in before || Listed(entries, ip))
    && (forall ip, i :: LastListing(entries, ip, i) ==> ip in after && RecordOf(after[ip], entries[i]))
    && (forall ip :: ip in before && !Listed(entries, ip) ==> ip in after && after[ip] == before[ip])
  }

  lemma {:induction false} EntryInserted(pods: map<string, PodInfo>, entry: ServicePodEntry, n: nat, ip: string)
    requires n <= |entry.podIps|
    ensures var after := Inserted(pods, EntryMessages(entry, n));
            && (ip in after <==> ip in pods || ip in entry.podIps[..n])
            && (ip in entry.podIps[..n] ==> RecordOf(after[ip], entry))
            && (ip in pods && ip !in entry.podIps[..n] ==> after[ip] == pods[ip])
    decreases n
  {
    if n > 0 {
      var last := EntryMessages(entry, n)[n - 1];
      EntryInserted(pods, entry, n - 1, ip);
      assert EntryMessages(entry, n) == EntryMessages(entry, n - 1) + [last];
      InsertedSnoc(pods, EntryMessages(entry, n - 1), last);
      assert entry.podIps[..n] == entry.podIps[..n - 1] + [entry.podIps[n - 1]];
    }
  }

  lemma {:induction false} InsertedConcat(pods: map<string, PodInfo>, first: seq<PodMessage>, second: seq<PodMessage>)
    ensures Inserted(pods, first + second) == Inserted(Inserted(pods, first), second)
    decreases |first|
  {
    if first == [] {
      assert first + second == second;
    } else {
      assert (first + second)[1..] == first[1..] + second;
      InsertedConcat(pods[first[0].ip := first[0].info], first[1..], second);
    }
  }

  lemma InsertedSnoc(pods: map<string, PodInfo>, messages: seq<PodMessage>, last: PodMessage)
    ensures Inserted(pods, messages + [last]) == Inserted(pods, messages)[last.ip := last.info]
  {
    InsertedConcat(pods, messages, [last]);
    assert [last][1..] == [];
    assert Inserted(Inserted(pods, messages), [last]) == Inserted(Inserted(pods, messages)[last.ip := last.info], []);
  }

  lemma ListedNext(front: seq<ServicePodEntry>, last: ServicePodEntry, ip: string)
    ensures Listed(front + [last], ip) <==> Listed(front, ip) || ListedIn(last, ip)
    ensures forall i :: LastListing(front + [last], ip, i) <==>
              if ListedIn(last, ip) then i == |front| else LastListing(front, ip, i)
  {
    var all := front + [last];
    if i :| 0 <= i < |front| && ListedIn(front[i], ip) {
      assert ListedIn(all[i], ip);
    }
    if ListedIn(last, ip) {
      assert ListedIn(all[|front|], ip);
    }
    forall i ensures LastListing(all, ip, i) <==>
                       if ListedIn(last, ip) then i == |front| else LastListing(front, ip, i) {
      assert all[|front|] == last;
      assert forall j :: 0 <= j < |front| ==> all[j] == front[j];
    }
  }

  /** One entry more, for one IP. */
  lemma {:induction false} MapInserted(pods: map<string, PodInfo>, entries: seq<ServicePodEntry>, ip: string)
    ensures var after := Inserted(pods, Messages(entries));
            && (ip in after <==> ip in pods || Listed(entries, ip))
            && (forall i :: LastListing(entries, ip, i) ==> ip in after && RecordOf(after[ip], entries[i]))
            && (ip in pods && !Listed(entries, ip) ==> after[ip] == pods[ip])
  {
    if entries != [] {
      var n := |entries| - 1;
      var front, last := entries[..n], entries[n];
      MapInserted(pods, front, ip);
      InsertedConcat(pods, Messages(front), EntryMessages(last, |last.podIps|));
      EntryInserted(Inserted(pods, Messages(front)), last, |last.podIps|, ip);
      assert last.podIps[..|last.podIps|] == last.podIps;
      assert entries == front + [last];
      ListedNext(front, last, ip);
    }
  }

  lemma MapCached(c: Core, entries: seq<ServicePodEntry>)
    ensures CacheUpdated(c.pods, entries, RecordPods(c, Messages(entries)).pods)
  {
    RecordPodsParts(c, Messages(entries));
    forall ip
      ensures var after := RecordPods(c, Messages(entries)).pods;
              && (ip in after <==> ip in c.pods || Listed(entries, ip))
              && (forall i :: LastListing(entries, ip, i) ==> ip in after && RecordOf(after[ip], entries[i]))
              && (ip in c.pods && !Listed(entries, ip) ==> ip in after && after[ip] == c.pods[ip])
    {
      MapInserted(c.pods, entries, ip);
    }
  }

  /** A push of routes as steps of the transition system. */
  function PushSteps(routes: seq<Route>): seq<Step> {
    seq(|routes|, i requires 0 <= i < |routes| => PushRoute(routes[i].domain, routes[i].service))
  }

  lemma {:induction false} PushedRun(c: Core, routes: seq<Route>)
    ensures Continue(c, PushSteps(routes)) == c.(routes := Pushed(c.routes, routes))
  {
    if routes != [] {
      var n := |routes| - 1;
      PushedRun(c, routes[..n]);
      assert PushSteps(routes)[..n] == PushSteps(routes[..n]);
    }
  }

  class CoreServer {
    var podCache: map<string, PodInfo>
    var envoyCache: map<string, NodeId>
    var seenEdges: set<string>
    const topology: Topo.Topology

    constructor ()
      ensures fresh(topology) && Value() == INITIAL
    {
      podCache, envoyCache, seenEdges := map[], map[], {};
      topology := new Topo.Topology();
    }

    /** The server as a state of the transition system, with no task in flight. */
    function Value(): Core
      reads this, topology
    {
      Core(podCache, envoyCache, seenEdges, topology.State(), map[])
    }

    /** The called service: by the Envoy routes, else by the pod cache, else by
        the shape of the host. */
    method ResolveDestination(input: Input) returns (destination: NodeId)
      ensures var host := StripPort(input.host);
              destination == if host in envoyCache then envoyCache[host] else UnroutedDestination(podCache, input)
    {
      var host, destinationIp := StripPort(input.host), Ipv4Text(input.destination);
      if host in envoyCache {
        destination := envoyCache[host];
      } else if destinationIp in podCache && podCache[destinationIp].applicationName != "" {
        destination := NodeId(podCache[destinationIp].applicationName, podCache[destinationIp].namespace);
      } else {
        destination := ParseK8sHost(host);
      }
    }

    method RecordEbpfEvent(input: Input) returns (reply: string)
      modifies this, topology
      ensures Value() == RecordEvent(old(Value()), input)
      ensures reply == "Skipping health check event!" <==> Contains(input.path, "/health")
      ensures reply == "unresolved source — waiting for pod event"
         <==> !Contains(input.path, "/health") && SourcePod(old(podCache), input).None?
      ensures reply == "node already exists!"
         <==> SourcePod(old(podCache), input).Some? && seenEdges == old(seenEdges)
      ensures reply == "saved event!" <==> seenEdges != old(seenEdges)
    {
      if Contains(input.path, "/health") {
        return "Skipping health check event!";
      }
      var sourceIp, destinationIp := Ipv4Text(input.source), Ipv4Text(input.destination);
      if sourceIp !in podCache || podCache[sourceIp].applicationName == "" {
        return "unresolved source — waiting for pod event";
      }
      var pod := podCache[sourceIp];
      var destination := ResolveDestination(input);
      var service := destination.applicationName;
      if destinationIp in podCache && podCache[destinationIp].serviceName != "" {
        service := podCache[destinationIp].serviceName;
      }
      var key := EdgeKey(pod.namespace, pod.serviceName, destination.namespace, service);
      if key in seenEdges {
        return "node already exists!";
      }
      seenEdges := seenEdges + {key};
      var source := NodeId(pod.applicationName, pod.namespace);
      RecordCall(Flow(source, destination, input.path, input.httpMethod), sourceIp, destinationIp);
      return "saved event!";
    }

    /** The graph step of an event: both ends become nodes, then the flow. */
    method RecordCall(flow: Flow, sourceIp: string, destinationIp: string)
      modifies topology
      ensures topology.State() == WithCall(old(topology.State()), flow, sourceIp, destinationIp)
    {
      topology.AddNode(flow.source, NodeData(sourceIp, []));
      topology.AddNode(flow.destination, NodeData(destinationIp, []));
      topology.AddFlow(flow);
    }

    method RecordPodApplied(ip: string, info: PodInfo)
      modifies this, topology
      ensures Value() == RecordPod(old(Value()), PodMessage(ip, info))
    {
      podCache := podCache[ip := info];
      if info.applicationName != "" {
        topology.ResolveUnknownNode(ip, info.applicationName, info.namespace);
      }
    }

    method RecordPodDeleted(ip: string)
      modifies this
      ensures Value() == old(Value()).(pods := old(podCache) - {ip}) == Apply(old(Value()), DeletePod(ip))
    {
      podCache := podCache - {ip};
    }

    method RecordK8sResourceEvent(name: string, namespace: string, event: K8sEvent)
      modifies topology
      ensures Value() == old(Value()).(graph := WithEvent(old(topology.State()), NodeId(name, namespace), event))
      ensures Value() == Apply(old(Value()), AttachEvent(NodeId(name, namespace), event))
    {
      topology.AddK8sEvent(NodeId(name, namespace), event);
    }

    method SendServicePodMap(entries: seq<ServicePodEntry>)
      modifies this, topology
      ensures Value() == RecordPods(old(Value()), Messages(entries))
      ensures CacheUpdated(old(podCache), entries, podCache)
    {
      for i := 0 to |entries|
        invariant Value() == RecordPods(old(Value()), Messages(entries[..i]))
      {
        ghost var before := Value();
        assert entries[..i + 1][..i] == entries[..i];
        var ips := entries[i].podIps;
        for j := 0 to |ips|
          invariant Value() == RecordPods(before, EntryMessages(entries[i], j))
        {
          RecordPodsConcat(before, EntryMessages(entries[i], j), [EntryMessages(entries[i], j + 1)[j]]);
          assert EntryMessages(entries[i], j + 1)
              == EntryMessages(entries[i], j) + [EntryMessages(entries[i], j + 1)[j]];
          assert [EntryMessages(entries[i], j + 1)[j]][1..] == [];
          RecordPodApplied(ips[j], PodInfo(entries[i].namespace, entries[i].applicationName, entries[i].serviceName,
                                           entries[i].serviceType));
        }
        RecordPodsConcat(old(Value()), Messages(entries[..i]), EntryMessages(entries[i], |ips|));
      }
      assert entries[..|entries|] == entries;
      MapCached(old(Value()), entries);
    }

    method SendEnvoyRoutes(routes: seq<Route>)
      modifies this
      ensures Value() == old(Value()).(routes := Pushed(old(envoyCache), routes))
      ensures Value() == Continue(old(Value()), PushSteps(routes))
    {
      for i := 0 to |routes|
        invariant Value() == old(Value()).(routes := Pushed(old(envoyCache), routes[..i]))
      {
        assert routes[..i + 1][..i] == routes[..i];
        envoyCache := envoyCache[routes[i].domain := routes[i].service];
      }
      assert routes[..|routes|] == routes;
      PushedRun(old(Value()), routes);
    }
  }
}
