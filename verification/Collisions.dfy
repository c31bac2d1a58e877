/** Edge keys are built from service names, nodes from application names: which
    events lose their dependency to an earlier one. */
module Collisions {
  import opened Graph
  import opened Hosts
  import opened Ingestion
  import ArrivalOrder

  /** Where an event leads, by route, pod or host name. */
  function Destination(c: Core, input: Input): NodeId {
    var host := StripPort(input.host);
    if host in c.routes then c.routes[host] else UnroutedDestination(c.pods, input)
  }

  function Key(c: Core, input: Input): string
    requires SourcePod(c.pods, input).Some?
  {
    KeyOf(c.pods, input, SourcePod(c.pods, input).value, Destination(c, input))
  }

  /** The dependency an event shows. */
  function Dependency(c: Core, input: Input): (NodeId, NodeId)
    requires SourcePod(c.pods, input).Some?
  {
    var pod := SourcePod(c.pods, input).value;
    (NodeId(pod.applicationName, pod.namespace), Destination(c, input))
  }

  /** An event handled without interruption, in these terms. */
  lemma EventRecorded(c: Core, input: Input)
    requires SourcePod(c.pods, input).Some?
    ensures var flow := FlowOf(input, SourcePod(c.pods, input).value, Destination(c, input));
            RecordEvent(c, input)
            == if Key(c, input) in c.seen then c
               else c.(seen := c.seen + {Key(c, input)},
                       graph := WithCall(c.graph, flow, SourceIp(input), DestinationIp(input)))
  {
  }

  /** What one event does to the claimed keys and the dependency relation. */
  lemma EventPairs(c: Core, input: Input)
    requires Sound(c.graph) && SourcePod(c.pods, input).Some?
    ensures var d := RecordEvent(c, input);
            && d.pods == c.pods && d.routes == c.routes && d.seen == c.seen + {Key(c, input)} && Sound(d.graph)
            && (Key(c, input) in c.seen ==> d == c)
            && (Key(c, input) !in c.seen ==> Pairs(d.graph) == Pairs(c.graph) + {Dependency(c, input)})
  {
    var pod := SourcePod(c.pods, input).value;
    var flow := FlowOf(input, pod, Destination(c, input));
    EventRecorded(c, input);
    CallSound(c.graph, flow, SourceIp(input), DestinationIp(input));
    CallPairs(c.graph, flow, SourceIp(input), DestinationIp(input));
  }

  /** What both events do, one after the other. */
  lemma TwoEventPairs(c: Core, input: Input, other: Input)
    requires Sound(c.graph) && SourcePod(c.pods, input).Some? && SourcePod(c.pods, other).Some?
    requires Key(c, input) !in c.seen && Key(c, other) !in c.seen
    ensures Pairs(RecordEvent(RecordEvent(c, input), other).graph)
         == Pairs(c.graph) + {Dependency(c, input)}
            + if Key(c, input) == Key(c, other) then {} else {Dependency(c, other)}
  {
    var d := RecordEvent(c, input);
    EventPairs(c, input);
    assert Key(d, other) == Key(c, other) && Dependency(d, other) == Dependency(c, other);
    EventPairs(d, other);
  }

  /** Of two new dependencies seen under unclaimed keys, whatever the hosts and
      routes, the second is missing afterwards if and only if both events have
      one key and the dependencies differ. */
  lemma MissingIffSameKey(c: Core, input: Input, other: Input)
    requires Sound(c.graph) && SourcePod(c.pods, input).Some? && SourcePod(c.pods, other).Some?
    requires Key(c, input) !in c.seen && Key(c, other) !in c.seen && Dependency(c, other) !in Pairs(c.graph)
    ensures Dependency(c, other) !in Pairs(RecordEvent(RecordEvent(c, input), other).graph)
       <==> Key(c, input) == Key(c, other) && Dependency(c, input) != Dependency(c, other)
  {
    TwoEventPairs(c, input, other);
  }

  /** For names as Kubernetes allows them, one key means the same namespaces and
      service names at both ends. */
  lemma SameKeyIff(c: Core, input: Input, other: Input)
    requires SourcePod(c.pods, input).Some? && SourcePod(c.pods, other).Some?
    requires var pod, pod' := SourcePod(c.pods, input).value, SourcePod(c.pods, other).value;
             && '/' !in pod.namespace && '/' !in pod'.namespace && ' ' !in pod.serviceName && ' ' !in pod'.serviceName
             && '/' !in Destination(c, input).namespace && '/' !in Destination(c, other).namespace
    ensures var pod, pod' := SourcePod(c.pods, input).value, SourcePod(c.pods, other).value;
            var to, to' := Destination(c, input), Destination(c, other);
            Key(c, input) == Key(c, other) <==>
              && pod.namespace == pod'.namespace && pod.serviceName == pod'.serviceName && to.namespace == to'.namespace
              && DestinationService(c.pods, input, to) == DestinationService(c.pods, other, to')
  {
    var pod, pod' := SourcePod(c.pods, input).value, SourcePod(c.pods, other).value;
    var to, to' := Destination(c, input), Destination(c, other);
    if Key(c, input) == Key(c, other) {
      ArrivalOrder.EdgeKeyInjective(
        pod.namespace, pod.serviceName, to.namespace, DestinationService(c.pods, input, to),
        pod'.namespace, pod'.serviceName, to'.namespace, DestinationService(c.pods, other, to'));
    }
  }

  lemma SameKeyDrops(c: Core, input: Input, other: Input)
    requires Sound(c.graph) && SourcePod(c.pods, input).Some? && SourcePod(c.pods, other).Some?
    requires Key(c, input) == Key(c, other) && Dependency(c, input) != Dependency(c, other)
    ensures RecordEvent(RecordEvent(c, input), other) == RecordEvent(c, input)
    ensures Dependency(c, other) !in Pairs(c.graph)
            ==> Dependency(c, other) !in Pairs(RecordEvent(RecordEvent(c, input), other).graph)
  {
    EventPairs(c, input);
    EventPairs(RecordEvent(c, input), other);
  }

  /** Two applications behind one service: one caller's second call is dropped. */
  lemma SharedServiceDrops(c: Core, input: Input, other: Input)
    requires Sound(c.graph) && SourcePod(c.pods, input).Some? && SourcePod(c.pods, other).Some?
    requires SourceIp(input) == SourceIp(other)
    requires StripPort(input.host) !in c.routes && StripPort(other.host) !in c.routes
    requires var ip, ip' := DestinationIp(input), DestinationIp(other);
             && ip in c.pods && ip' in c.pods && c.pods[ip].namespace == c.pods[ip'].namespace
             && c.pods[ip].serviceName == c.pods[ip'].serviceName != ""
             && c.pods[ip].applicationName != "" && c.pods[ip'].applicationName != ""
             && c.pods[ip].applicationName != c.pods[ip'].applicationName
    ensures RecordEvent(RecordEvent(c, input), other) == RecordEvent(c, input)
    ensures Dependency(c, other) !in Pairs(c.graph) ==> Dependency(c, other) !in Pairs(RecordEvent(c, input).graph)
  {
    assert Destination(c, input).applicationName != Destination(c, other).applicationName;
    SameKeyDrops(c, input, other);
  }

  /** Two applications that call from behind one service, or from behind none,
      in one namespace: the second caller's dependency is dropped. */
  lemma SharedCallerDrops(c: Core, input: Input, other: Input)
    requires Sound(c.graph) && SourcePod(c.pods, input).Some? && SourcePod(c.pods, other).Some?
    requires DestinationIp(input) == DestinationIp(other) && StripPort(input.host) == StripPort(other.host)
    requires var pod, pod' := SourcePod(c.pods, input).value, SourcePod(c.pods, other).value;
             && pod.namespace == pod'.namespace && pod.serviceName == pod'.serviceName
             && pod.applicationName != pod'.applicationName
    ensures RecordEvent(RecordEvent(c, input), other) == RecordEvent(c, input)
    ensures Dependency(c, other) !in Pairs(c.graph) ==> Dependency(c, other) !in Pairs(RecordEvent(c, input).graph)
  {
    assert Dependency(c, input).0.applicationName != Dependency(c, other).0.applicationName;
    SameKeyDrops(c, input, other);
  }

  /** Two routed hosts behind one proxy pod with a service name: the second
      host's dependency is dropped. */
  lemma SharedProxyDrops(c: Core, input: Input, other: Input)
    requires Sound(c.graph) && SourcePod(c.pods, input).Some? && SourcePod(c.pods, other).Some?
    requires SourceIp(input) == SourceIp(other) && DestinationIp(input) == DestinationIp(other)
    requires StripPort(input.host) in c.routes && StripPort(other.host) in c.routes
    requires var to, to' := c.routes[StripPort(input.host)], c.routes[StripPort(other.host)];
             to.namespace == to'.namespace && to.applicationName != to'.applicationName
    requires DestinationIp(input) in c.pods && c.pods[DestinationIp(input)].serviceName != ""
    ensures RecordEvent(RecordEvent(c, input), other) == RecordEvent(c, input)
    ensures Dependency(c, other) !in Pairs(c.graph) ==> Dependency(c, other) !in Pairs(RecordEvent(c, input).graph)
  {
    SameKeyDrops(c, input, other);
  }
}
