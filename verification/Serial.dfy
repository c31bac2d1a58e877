/** Runs in which every event and every pod message is handled without
    interruption: the graph is exact at every moment, in any arrival order. */
module Serial {
  import opened Graph
  import opened Hosts
  import opened Ingestion
  import opened ArrivalOrder
  import opened Interleaving
  import Healing
  import Resync

  datatype Action =
    | Traffic(input: Input)
    | Identify(messages: seq<PodMessage>)
    | Route(domain: string, to: NodeId)
    | Annotate(node: NodeId, event: K8sEvent)

  function Perform(c: Core, action: Action): Core {
    match action
    case Traffic(input) => RecordEvent(c, input)
    case Identify(messages) => RecordPods(c, messages)
    case Route(domain, to) => c.(routes := c.routes[domain := to])
    case Annotate(node, event) => c.(graph := WithEvent(c.graph, node, event))
  }

  function Outcome(actions: seq<Action>): Core {
    if actions == [] then INITIAL else Perform(Outcome(actions[..|actions| - 1]), actions[|actions| - 1])
  }

  ghost predicate Permitted(directory: Directory, action: Action) {
    match action
    case Traffic(input) => input.host == DestinationIp(input)
    case Identify(messages) => MessagesConform(directory, messages)
    case Route(domain, to) => !IsIpv4(domain)
    case Annotate(node, event) => true
  }

  ghost predicate Orderly(directory: Directory, actions: seq<Action>) {
    forall i :: 0 <= i < |actions| ==> Permitted(directory, actions[i])
  }

  /** The call of an event whose source is identified when it arrives. */
  function AcceptedBy(c: Core, action: Action): set<Call> {
    if action.Traffic? && SourcePod(c.pods, action.input).Some? then {CallOf(action.input)} else {}
  }

  function Accepted(actions: seq<Action>): set<Call> {
    if actions == [] then {}
    else
      var before := actions[..|actions| - 1];
      Accepted(before) + AcceptedBy(Outcome(before), actions[|actions| - 1])
  }

  ghost predicate TracksGraph(racing: bool, directory: Directory, c: Core, calls: set<Call>) {
    PodsConform(directory, c.pods) && Tracks(racing, directory, c.pods.Keys, Pairs(c.graph), c.seen, calls)
  }

  lemma KeyNow(directory: Directory, pods: map<string, PodInfo>, input: Input, pod: PodInfo)
    requires Proper(directory) && PodsConform(directory, pods) && SourceFits(directory, pods.Keys, input, pod)
    ensures var destination := Now(directory, pods.Keys, DestinationIp(input));
            && KeyFits(false, directory, pods.Keys, CallOf(input), KeyOf(pods, input, pod, destination))
            && FlowOf(input, pod, destination).source == NodeOf(directory, SourceIp(input))
  {
    var ip := DestinationIp(input);
    var destination := Now(directory, pods.Keys, ip);
    Ipv4TextIsIpv4(input.destination);
    if ip in pods {
      assert Conforms(directory, ip, pods[ip]);
      assert pods[ip].serviceName == directory[ip].service;
    }
    assert TargetFits(false, directory, pods.Keys, CallOf(input), destination.namespace,
                      DestinationService(pods, input, destination));
    assert pod.namespace == directory[SourceIp(input)].node.namespace;
    assert pod.serviceName == directory[SourceIp(input)].service;
  }

  lemma NowIsCurrent(directory: Directory, known: set<string>, ip: string)
    requires Proper(directory) && known <= directory.Keys
    ensures NowId(directory, known, Now(directory, known, ip)) == Now(directory, known, ip)
    ensures Now(directory, known, ip).namespace != UNKNOWN || Now(directory, known, ip).applicationName !in known
  {
  }

  /** Where an undisturbed event leads: to the destination as known right now. */
  lemma EventDestination(directory: Directory, c: Core, input: Input)
    requires Proper(directory) && PodsConform(directory, c.pods) && RoutesFit(c.routes)
    requires input.host == DestinationIp(input) && SourcePod(c.pods, input).Some?
    ensures var pod := SourcePod(c.pods, input).value;
            var destination := Now(directory, c.pods.Keys, DestinationIp(input));
            var key := KeyOf(c.pods, input, pod, destination);
            && SourceFits(directory, c.pods.Keys, input, pod)
            && RecordEvent(c, input)
            == if key in c.seen then c
               else c.(seen := c.seen + {key},
                       graph := WithCall(c.graph, FlowOf(input, pod, destination), SourceIp(input),
                                         DestinationIp(input)))
  {
    BareHost(input);
    DestinationResolved(directory, c.pods, input);
    assert Conforms(directory, SourceIp(input), c.pods[SourceIp(input)]);
  }

  /** The pair of an undisturbed event is counted and clean. */
  lemma WonTracks(directory: Directory, known: set<string>, pairs: set<Pair>, seen: set<string>, calls: set<Call>,
                  call: Call, key: string)
    requires Proper(directory) && Tracks(false, directory, known, pairs, seen, calls) && Clean(known, pairs)
    requires KeyFits(false, directory, known, call, key)
    ensures Tracks(false, directory, known, pairs + {Meant(directory, known, call)}, seen + {key}, calls + {call})
    ensures Clean(known, pairs + {Meant(directory, known, call)})
  {
    NowIsCurrent(directory, known, call.1);
    Won(false, directory, known, pairs, seen, calls, call, key, Meant(directory, known, call));
  }

  lemma EventTracks(directory: Directory, c: Core, calls: set<Call>, input: Input)
    requires Proper(directory) && RoutesFit(c.routes) && Sound(c.graph) && TracksGraph(false, directory, c, calls)
    requires Clean(c.pods.Keys, Pairs(c.graph))
    requires input.host == DestinationIp(input) && SourcePod(c.pods, input).Some?
    ensures TracksGraph(false, directory, RecordEvent(c, input), calls + {CallOf(input)})
    ensures Clean(c.pods.Keys, Pairs(RecordEvent(c, input).graph))
  {
    var pod, ip := SourcePod(c.pods, input).value, DestinationIp(input);
    var destination := Now(directory, c.pods.Keys, ip);
    var key, flow := KeyOf(c.pods, input, pod, destination), FlowOf(input, pod, destination);
    EventDestination(directory, c, input);
    KeyNow(directory, c.pods, input, pod);
    if key in c.seen {
      Lost(false, directory, c.pods.Keys, Pairs(c.graph), c.seen, calls, CallOf(input), key);
    } else {
      WonTracks(directory, c.pods.Keys, Pairs(c.graph), c.seen, calls, CallOf(input), key);
      CallPairs(c.graph, flow, SourceIp(input), ip);
    }
  }

  lemma RenameClean(known: set<string>, pairs: set<Pair>, ip: string, to: NodeId)
    requires Clean(known, pairs) && to.namespace != UNKNOWN
    ensures Clean(known + {ip}, RenamePairs(pairs, Stale(ip), to))
  {
    forall q | q in RenamePairs(pairs, Stale(ip), to)
      ensures q.1.namespace != UNKNOWN || q.1.applicationName !in known + {ip}
    {
      var p :| p in pairs && q == (Rename(p.0, Stale(ip), to), Rename(p.1, Stale(ip), to));
    }
  }

  /** Identifying a pod keeps the relation exact and leaves nothing to heal. */
  lemma PodTracks(racing: bool, directory: Directory, c: Core, calls: set<Call>, message: PodMessage)
    requires Proper(directory) && Sound(c.graph) && TracksGraph(racing, directory, c, calls)
    requires Conforms(directory, message.ip, message.info)
    ensures TracksGraph(racing, directory, RecordPod(c, message), calls)
    ensures Clean(c.pods.Keys, Pairs(c.graph))
            ==> Clean(RecordPod(c, message).pods.Keys, Pairs(RecordPod(c, message).graph))
    ensures Sound(RecordPod(c, message).graph)
  {
    var ip, info := message.ip, message.info;
    var to := directory[ip].node;
    assert info.applicationName == to.applicationName != "";
    var known := c.pods.Keys + {ip};
    assert c.pods[ip := info].Keys == known;
    HealedPairs(c.graph, ip, to);
    Healing.HealedSound(c.graph, ip, info.applicationName, info.namespace);
    HealTracks(racing, directory, c.pods.Keys, Pairs(c.graph), c.seen, calls, ip);
    if Clean(c.pods.Keys, Pairs(c.graph)) {
      RenameClean(c.pods.Keys, Pairs(c.graph), ip, to);
    }
  }

  lemma HealTracks(racing: bool, directory: Directory, known: set<string>, pairs: set<Pair>, seen: set<string>,
                   calls: set<Call>, ip: string)
    requires Proper(directory) && Tracks(racing, directory, known, pairs, seen, calls) && ip in directory
    ensures Tracks(racing, directory, known + {ip}, RenamePairs(pairs, Stale(ip), directory[ip].node), seen, calls)
  {
    var renamed := RenamePairs(pairs, Stale(ip), directory[ip].node);
    Identified(racing, directory, known, pairs, seen, calls, ip);
    assert pairs + {} == pairs && renamed + {} == renamed;
    Resolved(directory, known + {ip}, pairs, {}, calls, ip);
  }

  lemma {:induction false} PodsTrack(racing: bool, directory: Directory, c: Core, calls: set<Call>,
                                     messages: seq<PodMessage>)
    requires Proper(directory) && Sound(c.graph) && TracksGraph(racing, directory, c, calls)
    requires MessagesConform(directory, messages)
    ensures TracksGraph(racing, directory, RecordPods(c, messages), calls)
    ensures Clean(c.pods.Keys, Pairs(c.graph))
            ==> Clean(RecordPods(c, messages).pods.Keys, Pairs(RecordPods(c, messages).graph))
    ensures Sound(RecordPods(c, messages).graph)
    decreases |messages|
  {
    if messages != [] {
      PodTracks(racing, directory, c, calls, messages[0]);
      PodsTrack(racing, directory, RecordPod(c, messages[0]), calls, messages[1..]);
    }
  }

  /** The state of an orderly run that has accepted `calls`. */
  ghost predicate Settled(directory: Directory, c: Core, calls: set<Call>) {
    && Sound(c.graph) && RoutesFit(c.routes)
    && TracksGraph(false, directory, c, calls)
    && Clean(c.pods.Keys, Pairs(c.graph))
  }

  lemma RecordPodsKeeps(c: Core, messages: seq<PodMessage>)
    ensures RecordPods(c, messages).routes == c.routes && RecordPods(c, messages).seen == c.seen
    ensures RecordPods(c, messages).tasks == c.tasks
  {
    Resync.RecordPodsParts(c, messages);
  }

  lemma ActionSettled(directory: Directory, c: Core, calls: set<Call>, action: Action)
    requires Proper(directory) && Settled(directory, c, calls) && Permitted(directory, action)
    ensures Settled(directory, Perform(c, action), calls + AcceptedBy(c, action))
  {
    if AcceptedBy(c, action) == {} {
      assert calls + AcceptedBy(c, action) == calls;
    }
    match action
    case Traffic(input) =>
      if SourcePod(c.pods, input).Some? {
        EventTracks(directory, c, calls, input);
        EventDestination(directory, c, input);
        CallSound(c.graph, FlowOf(input, SourcePod(c.pods, input).value,
                                  Now(directory, c.pods.Keys, DestinationIp(input))),
                  SourceIp(input), DestinationIp(input));
      }
    case Identify(messages) =>
      PodsTrack(false, directory, c, calls, messages);
      RecordPodsKeeps(c, messages);
    case Annotate(node, event) => EventSound(c.graph, node, event);
    case Route(domain, to) =>
  }

  lemma {:induction false} OutcomeSettled(directory: Directory, actions: seq<Action>)
    requires Proper(directory) && Orderly(directory, actions)
    ensures Settled(directory, Outcome(actions), Accepted(actions))
  {
    if actions != [] {
      var before := actions[..|actions| - 1];
      OutcomeSettled(directory, before);
      ActionSettled(directory, Outcome(before), Accepted(before), actions[|actions| - 1]);
    }
  }

  /** The dependency relation is exactly the set of accepted calls, each between
      its identified source and its destination as identified so far. */
  ghost predicate ExactAfter(directory: Directory, actions: seq<Action>) {
    Pairs(Outcome(actions).graph) == Expected(directory, Outcome(actions).pods.Keys, Accepted(actions))
  }

  /** In every uninterrupted run the dependency relation is exact, although
      repeated edges are dropped, if namespace and service name fix the
      application. */
  lemma SerialExact(directory: Directory, actions: seq<Action>)
    requires Proper(directory) && Determined(directory) && Orderly(directory, actions)
    ensures ExactAfter(directory, actions)
  {
    OutcomeSettled(directory, actions);
    ViewUnchanged(directory, Outcome(actions).pods.Keys, Pairs(Outcome(actions).graph));
  }

  /** Two uninterrupted runs that accept the same calls and identify the same
      pods, in whatever order, end with the same dependency relation. */
  lemma OrderIndependent(directory: Directory, actions: seq<Action>, others: seq<Action>)
    requires Proper(directory) && Determined(directory) && Orderly(directory, actions) && Orderly(directory, others)
    requires Accepted(actions) == Accepted(others)
    requires Outcome(actions).pods.Keys == Outcome(others).pods.Keys
    ensures Pairs(Outcome(actions).graph) == Pairs(Outcome(others).graph)
  {
    SerialExact(directory, actions);
    SerialExact(directory, others);
  }

  /** A plain request between two addresses. */
  function Request(source: Ipv4, destination: Ipv4): Input {
    Input(source, destination, "GET", "", Ipv4Text(destination))
  }

  /** The pod message the directory prescribes. */
  function MessageOf(directory: Directory, ip: string): PodMessage
    requires ip in directory
  {
    var id := directory[ip];
    PodMessage(ip, PodInfo(id.node.namespace, id.node.applicationName, id.service, ""))
  }

  /** Two pods are identified, the first calls itself, then one calls the other. */
  function TwoCalls(directory: Directory, ip: string, other: string, first: Input, second: Input): seq<Action>
    requires ip in directory && other in directory
  {
    [Identify([MessageOf(directory, ip), MessageOf(directory, other)]), Traffic(first), Traffic(second)]
  }

  /** The edge key the directory gives to a call between identified pods. */
  function DirectoryKey(directory: Directory, call: Call): string
    requires call.0 in directory && call.1 in directory
  {
    var source, target := directory[call.0], directory[call.1];
    EdgeKey(source.node.namespace, source.service, target.node.namespace, TargetService(target))
  }

  lemma TwoIdentified(directory: Directory, ip: string, other: string)
    requires ip in directory && other in directory
    ensures var c := RecordPods(INITIAL, [MessageOf(directory, ip), MessageOf(directory, other)]);
            && PodsConform(directory, c.pods) && c.pods.Keys == {ip, other}
            && c == INITIAL.(pods := c.pods)
  {
    var first, second := MessageOf(directory, ip), MessageOf(directory, other);
    assert [first, second][1..] == [second] && [second][1..] == [];
    var c := RecordPod(INITIAL, first);
    assert RecordPods(INITIAL, [first, second]) == RecordPods(c, [second]) == RecordPods(RecordPod(c, second), []);
  }

  /** What an undisturbed request between identified pods does. */
  lemma RequestRecorded(directory: Directory, c: Core, source: Ipv4, destination: Ipv4)
    requires Proper(directory) && PodsConform(directory, c.pods) && c.routes == map[] && Sound(c.graph)
    requires Ipv4Text(source) in c.pods && Ipv4Text(destination) in c.pods
    ensures var input := Request(source, destination);
            var key := DirectoryKey(directory, CallOf(input));
            var d := RecordEvent(c, input);
            && SourcePod(c.pods, input).Some? && d.pods == c.pods && d.routes == c.routes && Sound(d.graph)
            && d.seen == c.seen + {key} && (key in c.seen ==> d == c)
            && (key !in c.seen ==> Pairs(d.graph) == Pairs(c.graph) + {Meant(directory, c.pods.Keys, CallOf(input))})
  {
    var input := Request(source, destination);
    var ip, to := SourceIp(input), DestinationIp(input);
    assert Conforms(directory, ip, c.pods[ip]) && Conforms(directory, to, c.pods[to]);
    var pod := c.pods[ip];
    assert pod.applicationName == directory[ip].node.applicationName != "";
    EventDestination(directory, c, input);
    assert KeyOf(c.pods, input, pod, Now(directory, c.pods.Keys, to)) == DirectoryKey(directory, CallOf(input));
    var flow := FlowOf(input, pod, Now(directory, c.pods.Keys, to));
    CallSound(c.graph, flow, ip, to);
    CallPairs(c.graph, flow, ip, to);
  }

  lemma OutcomeOfThree(a: Action, b: Action, d: Action)
    ensures Outcome([a, b, d]) == Perform(Perform(Perform(INITIAL, a), b), d)
    ensures Accepted([a, b, d])
         == AcceptedBy(INITIAL, a) + AcceptedBy(Perform(INITIAL, a), b) + AcceptedBy(Perform(Perform(INITIAL, a), b), d)
  {
    assert [a, b, d][..2] == [a, b] && [a, b][..1] == [a] && [a][..0] == [];
    assert Outcome([a]) == Perform(INITIAL, a);
    assert Accepted([a]) == AcceptedBy(INITIAL, a);
    assert Outcome([a, b]) == Perform(Perform(INITIAL, a), b);
    assert Accepted([a, b]) == AcceptedBy(INITIAL, a) + AcceptedBy(Perform(INITIAL, a), b);
  }

  /** When two calls have one key, the second is dropped. */
  lemma SecondDropped(directory: Directory, c: Core, ip: Ipv4, from: Ipv4, to: Ipv4)
    requires Proper(directory) && PodsConform(directory, c.pods) && c == INITIAL.(pods := c.pods)
    requires Ipv4Text(ip) in c.pods && Ipv4Text(from) in c.pods && Ipv4Text(to) in c.pods
    requires DirectoryKey(directory, (Ipv4Text(ip), Ipv4Text(ip)))
             == DirectoryKey(directory, (Ipv4Text(from), Ipv4Text(to)))
    ensures var first, second := Request(ip, ip), Request(from, to);
            var d := RecordEvent(RecordEvent(c, first), second);
            && SourcePod(c.pods, first).Some? && SourcePod(RecordEvent(c, first).pods, second).Some?
            && d.pods == c.pods && Pairs(d.graph) == {Meant(directory, c.pods.Keys, CallOf(first))}
  {
    assert Pairs(EMPTY) == {};
    RequestRecorded(directory, c, ip, ip);
    RequestRecorded(directory, RecordEvent(c, Request(ip, ip)), from, to);
  }

  lemma TwoCallsOrderly(directory: Directory, ip: string, other: string, first: Input, second: Input)
    requires ip in directory && other in directory
    requires first.host == DestinationIp(first) && second.host == DestinationIp(second)
    ensures Orderly(directory, TwoCalls(directory, ip, other, first, second))
  {
    assert MessagesConform(directory, [MessageOf(directory, ip), MessageOf(directory, other)]);
  }

  lemma TwoCallsRun(directory: Directory, ip: string, other: string, first: Input, second: Input)
    requires ip in directory && other in directory
    ensures var actions := TwoCalls(directory, ip, other, first, second);
            var c := RecordPods(INITIAL, [MessageOf(directory, ip), MessageOf(directory, other)]);
            && Outcome(actions) == RecordEvent(RecordEvent(c, first), second)
            && (SourcePod(c.pods, first).Some? && SourcePod(RecordEvent(c, first).pods, second).Some?
                ==> Accepted(actions) == {CallOf(first), CallOf(second)})
  {
    OutcomeOfThree(Identify([MessageOf(directory, ip), MessageOf(directory, other)]), Traffic(first), Traffic(second));
  }

  lemma MissingPair(directory: Directory, known: set<string>, call: Call, missing: Call)
    requires Proper(directory) && known <= directory.Keys
    requires Meant(directory, known, call) != Meant(directory, known, missing)
    ensures !(Expected(directory, known, {call, missing}) <= View(directory, known, {Meant(directory, known, call)}))
  {
    NowIsCurrent(directory, known, call.1);
    assert View(directory, known, {Meant(directory, known, call)}) == {Meant(directory, known, call)};
    assert Meant(directory, known, missing) in Expected(directory, known, {call, missing});
  }

  /** A run that leaves out a call whose key another has taken. */
  lemma InexactRun(directory: Directory, ip: Ipv4, other: Ipv4, from: Ipv4, to: Ipv4)
    requires Proper(directory) && Ipv4Text(ip) in directory && Ipv4Text(other) in directory
    requires (from, to) == (ip, other) || (from, to) == (other, ip)
    requires DirectoryKey(directory, (Ipv4Text(ip), Ipv4Text(ip)))
             == DirectoryKey(directory, (Ipv4Text(from), Ipv4Text(to)))
    requires directory[Ipv4Text(ip)].node != directory[Ipv4Text(other)].node
    ensures var actions := TwoCalls(directory, Ipv4Text(ip), Ipv4Text(other), Request(ip, ip), Request(from, to));
            Orderly(directory, actions) && Incomplete(directory, actions)
  {
    var x, y := Ipv4Text(ip), Ipv4Text(other);
    var first, second := Request(ip, ip), Request(from, to);
    TwoIdentified(directory, x, y);
    var c := RecordPods(INITIAL, [MessageOf(directory, x), MessageOf(directory, y)]);
    SecondDropped(directory, c, ip, from, to);
    TwoCallsOrderly(directory, x, y, first, second);
    TwoCallsRun(directory, x, y, first, second);
    MissingPair(directory, c.pods.Keys, CallOf(first), CallOf(second));
  }

  /** Some accepted call is not depicted. */
  ghost predicate Incomplete(directory: Directory, actions: seq<Action>) {
    var c := Outcome(actions);
    !(Expected(directory, c.pods.Keys, Accepted(actions)) <= View(directory, c.pods.Keys, Pairs(c.graph)))
  }

  /** Every uninterrupted run is exact if and only if namespace and service name
      fix the application, for callers and for callees. */
  lemma ExactIffDetermined(directory: Directory)
    requires Proper(directory) && forall ip :: ip in directory ==> IsIpv4(ip)
    ensures Determined(directory) <==> forall actions :: Orderly(directory, actions) ==> ExactAfter(directory, actions)
  {
    if Determined(directory) {
      forall actions | Orderly(directory, actions) ensures ExactAfter(directory, actions) {
        SerialExact(directory, actions);
      }
    } else {
      var actions := Undetermined(directory);
      OutcomeSettled(directory, actions);
      ViewUnchanged(directory, Outcome(actions).pods.Keys, Pairs(Outcome(actions).graph));
      assert Orderly(directory, actions) && !ExactAfter(directory, actions);
    }
  }

  /** Two pods that share namespace and service name but not the application. */
  lemma Undetermined(directory: Directory) returns (actions: seq<Action>)
    requires Proper(directory) && !Determined(directory) && forall ip :: ip in directory ==> IsIpv4(ip)
    ensures Orderly(directory, actions) && Incomplete(directory, actions)
  {
    var x, y :| x in directory && y in directory
      && directory[x].node.namespace == directory[y].node.namespace && directory[x].node != directory[y].node
      && (directory[x].service == directory[y].service || TargetService(directory[x]) == TargetService(directory[y]));
    var ip := Ipv4Printed(x);
    var other := Ipv4Printed(y);
    if directory[x].service == directory[y].service {
      actions := TwoCalls(directory, x, y, Request(ip, ip), Request(other, ip));
      InexactRun(directory, ip, other, other, ip);
    } else {
      actions := TwoCalls(directory, x, y, Request(ip, ip), Request(ip, other));
      InexactRun(directory, ip, other, ip, other);
    }
  }
}
