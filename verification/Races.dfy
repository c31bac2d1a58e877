/** What interleaving can and cannot break, and what repairs it. */
module Races {
  import opened Graph
  import opened Hosts
  import opened Ingestion
  import opened ArrivalOrder
  import opened Interleaving
  import opened Schedules
  import Resync
  import Serial

  lemma NamedByDirectory(directory: Directory, messages: seq<PodMessage>, ip: string)
    requires Proper(directory) && MessagesConform(directory, messages)
    ensures Resync.Known(messages)
    ensures Resync.Lists(messages, ip) ==> Resync.ListsNamed(messages, ip)
  {
    forall i | 0 <= i < |messages|
      ensures messages[i].info.namespace != UNKNOWN && messages[i].info.applicationName != ""
    {
      assert Conforms(directory, messages[i].ip, messages[i].info);
    }
  }

  lemma NoRawFlows(g: Graph, pods: map<string, PodInfo>)
    requires Sound(g) && forall ip :: ip in pods ==> Stale(ip) !in g.nodes
    ensures Clean(pods.Keys, Pairs(g))
  {
    forall p | p in Pairs(g) && p.1.namespace == UNKNOWN ensures p.1.applicationName !in pods {
      var flow :| flow in Flows(g) && p == (flow.source, flow.destination);
      assert p.1 == Stale(p.1.applicationName);
    }
  }

  lemma ResyncClean(directory: Directory, c: Core, messages: seq<PodMessage>)
    requires Proper(directory) && MessagesConform(directory, messages)
    requires forall ip :: ip in c.pods ==> Resync.Lists(messages, ip)
    ensures forall ip :: ip in RecordPods(c, messages).pods ==> Stale(ip) !in RecordPods(c, messages).graph.nodes
  {
    var d := RecordPods(c, messages);
    forall ip | ip in d.pods ensures Stale(ip) !in d.graph.nodes {
      Resync.RecordPodsParts(c, messages);
      Resync.InsertedAt(c.pods, c.pods, messages, ip);
      NamedByDirectory(directory, messages, ip);
      Resync.KnownSettles(messages);
      Resync.ResyncClears(c, messages, ip);
    }
  }

  /** Once a disciplined run is idle, one resync that lists every identified
      pod makes the graph exact, whatever interleaving went before. */
  lemma ResyncSettles(directory: Directory, steps: seq<Step>, messages: seq<PodMessage>)
    requires Proper(directory) && Faithful(true, directory) && Disciplined(directory, steps)
    requires Run(steps).tasks == map[] && MessagesConform(directory, messages)
    requires forall ip :: ip in Run(steps).pods ==> Resync.Lists(messages, ip)
    ensures var d := RecordPods(Run(steps), messages);
            Pairs(d.graph) == Expected(directory, d.pods.Keys, Counted(steps))
  {
    var c, d := Run(steps), RecordPods(Run(steps), messages);
    RunSound(steps);
    RunTracked(directory, steps);
    assert Pairs(c.graph) + PendingPairs(c.tasks) == Pairs(c.graph);
    Serial.PodsTrack(true, directory, c, Counted(steps), messages);
    ResyncClean(directory, c, messages);
    NoRawFlows(d.graph, d.pods);
    ViewUnchanged(directory, d.pods.Keys, Pairs(d.graph));
  }

  /** From `c` the steps lead to `d` and count `calls`. */
  ghost predicate Leads(c: Core, steps: seq<Step>, d: Core, calls: set<Call>) {
    Continue(c, steps) == d && CountedFrom(c, steps) == calls
  }

  lemma LeadsThen(c: Core, first: seq<Step>, d: Core, calls: set<Call>, second: seq<Step>, e: Core, more: set<Call>)
    requires Leads(c, first, d, calls) && Leads(d, second, e, more)
    ensures Leads(c, first + second, e, calls + more)
  {
    ContinueConcat(c, first, second);
    CountedConcat(c, first, second);
  }

  lemma DisciplinedThen(directory: Directory, first: seq<Step>, second: seq<Step>)
    requires Disciplined(directory, first) && Disciplined(directory, second)
    ensures Disciplined(directory, first + second)
  {
  }

  /** A handler identifies a list of pods. */
  function Identification(id: nat, messages: seq<PodMessage>): seq<Step> {
    [Spawn(id, Applying(messages))] + Advances(id, 2 * |messages| + 1)
  }

  /** An event task runs up to and including the lookup of its destination. */
  function Lookup(id: nat, input: Input): seq<Step> { [Spawn(id, Received(input))] + Advances(id, 3) }

  /** An event task runs from there to its end. */
  function Finish(id: nat): seq<Step> { Advances(id, 3) }

  /** An event task runs without interruption. */
  function Whole(id: nat, input: Input): seq<Step> { [Spawn(id, Received(input))] + Advances(id, 6) }

  lemma SegmentsDisciplined(directory: Directory, id: nat, messages: seq<PodMessage>, input: Input)
    requires MessagesConform(directory, messages) && input.host == DestinationIp(input)
    ensures Disciplined(directory, Identification(id, messages)) && Disciplined(directory, Lookup(id, input))
    ensures Disciplined(directory, Finish(id)) && Disciplined(directory, Whole(id, input))
  {
  }

  /** While the graph is empty there is nothing to heal. */
  lemma IdentificationLeads(c: Core, id: nat, messages: seq<PodMessage>)
    requires id !in c.tasks && c.graph == EMPTY
    ensures Leads(c, Identification(id, messages), c.(pods := Resync.Inserted(c.pods, messages)), {})
  {
    PodsCounted(c, id, messages, 2 * |messages| + 1);
    Resync.RecordPodsParts(c, messages);
    Resync.NothingToHeal(EMPTY, messages);
  }

  /** A task that found no pod at its destination IP. */
  function LookedUp(input: Input, pod: PodInfo): Task {
    DestinationKnown(input, pod, Stale(DestinationIp(input)))
  }

  lemma LookupFails(c: Core, id: nat, input: Input, pod: PodInfo)
    requires id !in c.tasks && c.routes == map[] && DestinationIp(input) !in c.pods
    requires input.host == DestinationIp(input) && SourcePod(c.pods, input) == Some(pod)
    ensures Finishing(c, id, SourceKnown(input, pod), 2) == c.(tasks := c.tasks[id := LookedUp(input, pod)])
    ensures CountedWhile(c, id, SourceKnown(input, pod), 2) == {}
  {
    BareHost(input);
    AdvanceTask(c, id, SourceKnown(input, pod), 2);
    AdvanceTask(c, id, RouteMissed(input, pod), 1);
    CountedLater(c, id, SourceKnown(input, pod), 2);
    CountedLater(c, id, RouteMissed(input, pod), 1);
  }

  lemma LookupCounted(c: Core, id: nat, input: Input, pod: PodInfo)
    requires id !in c.tasks && SourcePod(c.pods, input) == Some(pod)
    requires CountedWhile(c, id, SourceKnown(input, pod), 2) == {}
    ensures CountedFrom(c, Lookup(id, input)) == {}
  {
    CountedCons(c, Spawn(id, Received(input)), Advances(id, 3));
    assert Effect(c, Received(input)) == c;
    CountedLater(c, id, Received(input), 3);
  }

  lemma LookupLeads(c: Core, id: nat, input: Input, pod: PodInfo)
    requires id !in c.tasks && c.routes == map[] && DestinationIp(input) !in c.pods
    requires input.host == DestinationIp(input) && SourcePod(c.pods, input) == Some(pod)
    ensures Leads(c, Lookup(id, input), c.(tasks := c.tasks[id := LookedUp(input, pod)]), {})
  {
    LookupFails(c, id, input, pod);
    LookupCounted(c, id, input, pod);
    ContinueCons(c, Spawn(id, Received(input)), Advances(id, 3));
    AdvanceTask(c, id, Received(input), 3);
  }

  /** What a task records that knows its destination. */
  function RecordedAs(c: Core, input: Input, pod: PodInfo, destination: NodeId): Core {
    var key := KeyOf(c.pods, input, pod, destination);
    if key in c.seen then c
    else c.(seen := c.seen + {key},
            graph := WithCall(c.graph, FlowOf(input, pod, destination), SourceIp(input), DestinationIp(input)))
  }

  lemma FinishLeads(c: Core, id: nat, input: Input, pod: PodInfo)
    requires id !in c.tasks
    ensures Leads(c.(tasks := c.tasks[id := LookedUp(input, pod)]), Finish(id),
                  RecordedAs(c, input, pod, Stale(DestinationIp(input))), {CallOf(input)})
  {
    KeyedTaskAtomic(c, id, input, pod, Stale(DestinationIp(input)), 3);
    KeyedCounted(c, id, input, pod, Stale(DestinationIp(input)), 3);
  }

  lemma WholeLeads(c: Core, id: nat, input: Input, pod: PodInfo)
    requires id !in c.tasks && c.routes == map[] && DestinationIp(input) !in c.pods
    requires input.host == DestinationIp(input) && SourcePod(c.pods, input) == Some(pod)
    ensures Leads(c, Whole(id, input), RecordedAs(c, input, pod, Stale(DestinationIp(input))), {CallOf(input)})
  {
    BareHost(input);
    EventTaskAtomic(c, id, input);
    EventCounted(c, id, input);
  }

  /** The first event of a run, caught between its two reads. */
  lemma FirstRecorded(c: Core, input: Input, pod: PodInfo)
    requires c.seen == {} && c.graph == EMPTY
    ensures var d := RecordedAs(c, input, pod, Stale(DestinationIp(input)));
            && d == c.(seen := {KeyOf(c.pods, input, pod, Stale(DestinationIp(input)))}, graph := d.graph)
            && Pairs(d.graph) == {(NodeId(pod.applicationName, pod.namespace), Stale(DestinationIp(input)))}
  {
    FirstPair(FlowOf(input, pod, Stale(DestinationIp(input))), SourceIp(input), DestinationIp(input));
  }

  lemma FirstPair(flow: Flow, sourceIp: string, destinationIp: string)
    ensures Pairs(WithCall(EMPTY, flow, sourceIp, destinationIp)) == {(flow.source, flow.destination)}
  {
    CallPairs(EMPTY, flow, sourceIp, destinationIp);
    assert Pairs(EMPTY) == {};
  }

  /** The key of a task that looked its destination up in vain: the raw namespace
      with the service found since, if any, or the raw IP. */
  lemma RawKey(pods: map<string, PodInfo>, input: Input, pod: PodInfo, name: string)
    requires var ip := DestinationIp(input);
             name == if ip in pods && pods[ip].serviceName != "" then pods[ip].serviceName else ip
    ensures KeyOf(pods, input, pod, Stale(DestinationIp(input)))
         == EdgeKey(pod.namespace, pod.serviceName, UNKNOWN, name)
  {
  }

  /** The run in which a pod is identified after an event task looked its IP up
      and before that task reaches the graph. */
  function RaceSteps(source: PodMessage, input: Input, destination: PodMessage): seq<Step> {
    Identification(0, [source]) + Lookup(1, input) + Identification(2, [destination]) + Finish(1)
  }

  lemma InsertedOne(pods: map<string, PodInfo>, message: PodMessage)
    ensures Resync.Inserted(pods, [message]) == pods[message.ip := message.info]
  {
    assert [message][1..] == [];
    assert Resync.Inserted(pods, [message]) == Resync.Inserted(pods[message.ip := message.info], []);
  }

  /** Up to the first lookup. */
  lemma FirstLookup(source: PodMessage, input: Input)
    requires source.ip == SourceIp(input) != DestinationIp(input) && source.info.applicationName != ""
    requires input.host == DestinationIp(input) && !Contains(input.path, "/health")
    ensures Leads(INITIAL, Identification(0, [source]) + Lookup(1, input),
                  INITIAL.(pods := map[source.ip := source.info], tasks := map[1 := LookedUp(input, source.info)]), {})
  {
    var c := INITIAL.(pods := map[source.ip := source.info]);
    IdentificationLeads(INITIAL, 0, [source]);
    InsertedOne(map[], source);
    LookupLeads(c, 1, input, source.info);
    LeadsThen(INITIAL, Identification(0, [source]), c, {}, Lookup(1, input),
              c.(tasks := map[1 := LookedUp(input, source.info)]), {});
  }

  /** The destination is identified meanwhile, and the task goes on. */
  lemma RaceLeads(source: PodMessage, input: Input, destination: PodMessage)
    requires source.ip == SourceIp(input) && destination.ip == DestinationIp(input) && source.ip != destination.ip
    requires source.info.applicationName != "" && !Contains(input.path, "/health") && input.host == DestinationIp(input)
    ensures var c := INITIAL.(pods := map[source.ip := source.info, destination.ip := destination.info]);
            Leads(INITIAL, RaceSteps(source, input, destination),
                  RecordedAs(c, input, source.info, Stale(DestinationIp(input))), {CallOf(input)})
  {
    var tasks := map[1 := LookedUp(input, source.info)];
    var c1 := INITIAL.(pods := map[source.ip := source.info], tasks := tasks);
    var c := INITIAL.(pods := map[source.ip := source.info, destination.ip := destination.info]);
    var c2 := c.(tasks := c.tasks[1 := LookedUp(input, source.info)]);
    FirstLookup(source, input);
    IdentificationLeads(c1, 2, [destination]);
    InsertedOne(c1.pods, destination);
    var first := Identification(0, [source]) + Lookup(1, input);
    LeadsThen(INITIAL, first, c1, {}, Identification(2, [destination]), c2, {});
    FinishLeads(c, 1, input, source.info);
    LeadsThen(INITIAL, first + Identification(2, [destination]), c2, {}, Finish(1),
              RecordedAs(c, input, source.info, Stale(DestinationIp(input))), {CallOf(input)});
  }

  /** Looking through raw IPs is not idle: in this run every task has finished
      and the destination is identified, yet the only flow still ends at its raw
      IP. */
  lemma RaceLeavesRawIp(source: PodMessage, input: Input, destination: PodMessage)
    requires source.ip == SourceIp(input) && destination.ip == DestinationIp(input) && source.ip != destination.ip
    requires source.info.applicationName != "" && !Contains(input.path, "/health") && input.host == DestinationIp(input)
    ensures var c := Run(RaceSteps(source, input, destination));
            && c.tasks == map[] && DestinationIp(input) in c.pods
            && Pairs(c.graph)
            == {(NodeId(source.info.applicationName, source.info.namespace), Stale(DestinationIp(input)))}
  {
    RaceLeads(source, input, destination);
    FirstRecorded(INITIAL.(pods := map[source.ip := source.info, destination.ip := destination.info]), input,
                  source.info);
  }

  /** Two event tasks look up their destinations in vain, then a handler
      identifies both, then the tasks go on. */
  function MixedSteps(source: PodMessage, input: Input, other: Input, found: seq<PodMessage>): seq<Step> {
    Identification(0, [source]) + Lookup(1, input) + Lookup(2, other) + Identification(3, found) + Finish(1) + Finish(2)
  }

  /** A source pod and two events of it that a race can confuse. */
  ghost predicate TwoEvents(source: PodMessage, input: Input, other: Input) {
    && source.ip == SourceIp(input) == SourceIp(other) && source.info.applicationName != ""
    && source.ip != DestinationIp(input) && source.ip != DestinationIp(other)
    && input.host == DestinationIp(input) && other.host == DestinationIp(other)
    && !Contains(input.path, "/health") && !Contains(other.path, "/health")
  }

  /** Up to the second lookup. */
  lemma SecondLookup(source: PodMessage, input: Input, other: Input)
    requires TwoEvents(source, input, other)
    ensures Leads(INITIAL, Identification(0, [source]) + Lookup(1, input) + Lookup(2, other),
                  INITIAL.(pods := map[source.ip := source.info],
                           tasks := map[1 := LookedUp(input, source.info), 2 := LookedUp(other, source.info)]), {})
  {
    var c := INITIAL.(pods := map[source.ip := source.info], tasks := map[1 := LookedUp(input, source.info)]);
    var d := c.(tasks := map[1 := LookedUp(input, source.info), 2 := LookedUp(other, source.info)]);
    FirstLookup(source, input);
    LookupLeads(c, 2, other, source.info);
    LeadsThen(INITIAL, Identification(0, [source]) + Lookup(1, input), c, {}, Lookup(2, other), d, {});
  }

  lemma InsertedTwo(pods: map<string, PodInfo>, found: seq<PodMessage>)
    requires |found| == 2
    ensures Resync.Inserted(pods, found) == pods[found[0].ip := found[0].info][found[1].ip := found[1].info]
  {
    assert found[1..] == [found[1]];
    InsertedOne(pods[found[0].ip := found[0].info], found[1]);
  }

  /** What is recorded does not depend on the tasks that wait. */
  lemma RecordedBeside(c: Core, tasks: Tasks, input: Input, pod: PodInfo, destination: NodeId)
    ensures RecordedAs(c.(tasks := tasks), input, pod, destination)
            == RecordedAs(c, input, pod, destination).(tasks := tasks)
    ensures RecordedAs(c, input, pod, destination).tasks == c.tasks
  {
  }

  /** A second event under the same key records nothing. */
  lemma Retaken(c: Core, input: Input, other: Input, pod: PodInfo)
    requires KeyOf(c.pods, input, pod, Stale(DestinationIp(input)))
             == KeyOf(c.pods, other, pod, Stale(DestinationIp(other)))
    ensures var d := RecordedAs(c, input, pod, Stale(DestinationIp(input)));
            d.pods == c.pods && RecordedAs(d, other, pod, Stale(DestinationIp(other))) == d
  {
  }

  /** Both tasks go on, under the key of the raw namespace and one name. */
  lemma BothFinish(c: Core, input: Input, other: Input, pod: PodInfo)
    requires c.tasks == map[]
    requires KeyOf(c.pods, input, pod, Stale(DestinationIp(input)))
             == KeyOf(c.pods, other, pod, Stale(DestinationIp(other)))
    ensures Leads(c.(tasks := map[1 := LookedUp(input, pod), 2 := LookedUp(other, pod)]), Finish(1) + Finish(2),
                  RecordedAs(c, input, pod, Stale(DestinationIp(input))), {CallOf(input), CallOf(other)})
  {
    var tasks := map[2 := LookedUp(other, pod)];
    var both := map[1 := LookedUp(input, pod), 2 := LookedUp(other, pod)];
    var d := RecordedAs(c, input, pod, Stale(DestinationIp(input)));
    RecordedBeside(c, tasks, input, pod, Stale(DestinationIp(input)));
    FinishLeads(c.(tasks := tasks), 1, input, pod);
    assert tasks[1 := LookedUp(input, pod)] == both;
    assert Leads(c.(tasks := both), Finish(1), d.(tasks := tasks), {CallOf(input)});
    Retaken(c, input, other, pod);
    FinishLeads(d, 2, other, pod);
    assert d.tasks[2 := LookedUp(other, pod)] == tasks;
    LeadsThen(c.(tasks := both), Finish(1), d.(tasks := tasks), {CallOf(input)}, Finish(2), d, {CallOf(other)});
  }

  /** Up to the identification of both destinations. */
  lemma BothIdentified(source: PodMessage, input: Input, other: Input, found: seq<PodMessage>)
    requires TwoEvents(source, input, other) && |found| == 2
    requires source.ip != found[0].ip && source.ip != found[1].ip && found[0].ip != found[1].ip
    ensures Leads(INITIAL, Identification(0, [source]) + Lookup(1, input) + Lookup(2, other) + Identification(3, found),
                  INITIAL.(pods := AllPods(source, found),
                           tasks := map[1 := LookedUp(input, source.info), 2 := LookedUp(other, source.info)]), {})
  {
    var c := INITIAL.(pods := map[source.ip := source.info],
                      tasks := map[1 := LookedUp(input, source.info), 2 := LookedUp(other, source.info)]);
    SecondLookup(source, input, other);
    IdentificationLeads(c, 3, found);
    InsertedTwo(c.pods, found);
    assert c.pods[found[0].ip := found[0].info][found[1].ip := found[1].info] == AllPods(source, found);
    LeadsThen(INITIAL, Identification(0, [source]) + Lookup(1, input) + Lookup(2, other), c, {},
              Identification(3, found), c.(pods := AllPods(source, found)), {});
  }

  function AllPods(source: PodMessage, found: seq<PodMessage>): map<string, PodInfo>
    requires |found| == 2
  {
    map[source.ip := source.info, found[0].ip := found[0].info, found[1].ip := found[1].info]
  }

  /** Where that run leads: the second call is counted and not recorded. */
  lemma MixedLeads(source: PodMessage, input: Input, other: Input, found: seq<PodMessage>)
    requires TwoEvents(source, input, other) && |found| == 2
    requires found[0].ip == DestinationIp(input) && found[1].ip == DestinationIp(other) && found[0].ip != found[1].ip
    requires found[0].info.serviceName == found[1].info.serviceName != ""
    ensures Leads(INITIAL, MixedSteps(source, input, other, found),
                  RecordedAs(INITIAL.(pods := AllPods(source, found)), input, source.info, Stale(DestinationIp(input))),
                  {CallOf(input), CallOf(other)})
  {
    var c := INITIAL.(pods := AllPods(source, found));
    var busy := c.(tasks := map[1 := LookedUp(input, source.info), 2 := LookedUp(other, source.info)]);
    var first := Identification(0, [source]) + Lookup(1, input) + Lookup(2, other) + Identification(3, found);
    RawKey(c.pods, input, source.info, found[0].info.serviceName);
    RawKey(c.pods, other, source.info, found[0].info.serviceName);
    BothIdentified(source, input, other, found);
    BothFinish(c, input, other, source.info);
    LeadsThen(INITIAL, first, busy, {}, Finish(1) + Finish(2),
              RecordedAs(c, input, source.info, Stale(DestinationIp(input))), {CallOf(input), CallOf(other)});
    assert first + (Finish(1) + Finish(2)) == MixedSteps(source, input, other, found);
  }

  /** Some counted call is not depicted. */
  ghost predicate Incomplete(directory: Directory, steps: seq<Step>) {
    var c := Run(steps);
    !(Expected(directory, c.pods.Keys, Counted(steps)) <= Depicted(directory, c))
  }

  /** Only the first of two calls left a flow, to a raw IP identified since. */
  lemma OneLeft(directory: Directory, c: Core, first: Call, second: Call)
    requires Proper(directory) && c.tasks == map[] && first.1 in c.pods && first.1 in directory
    requires Pairs(c.graph) == {(NodeOf(directory, first.0), Stale(first.1))}
    requires Meant(directory, c.pods.Keys, first) != Meant(directory, c.pods.Keys, second)
    ensures !(Expected(directory, c.pods.Keys, {first, second}) <= Depicted(directory, c))
  {
    var known := c.pods.Keys;
    assert Pairs(c.graph) + PendingPairs(c.tasks) == Pairs(c.graph);
    assert Depicted(directory, c) == {Meant(directory, known, first)};
    assert Meant(directory, known, second) in Expected(directory, known, {first, second});
  }

  lemma MixedDisciplined(directory: Directory, source: PodMessage, input: Input, other: Input, found: seq<PodMessage>)
    requires MessagesConform(directory, [source]) && MessagesConform(directory, found)
    requires input.host == DestinationIp(input) && other.host == DestinationIp(other)
    ensures Disciplined(directory, MixedSteps(source, input, other, found))
  {
    SegmentsDisciplined(directory, 0, [source], input);
    SegmentsDisciplined(directory, 1, found, input);
    SegmentsDisciplined(directory, 2, found, other);
    SegmentsDisciplined(directory, 3, found, other);
    var lookups := Identification(0, [source]) + Lookup(1, input);
    DisciplinedThen(directory, Identification(0, [source]), Lookup(1, input));
    DisciplinedThen(directory, lookups, Lookup(2, other));
    DisciplinedThen(directory, lookups + Lookup(2, other), Identification(3, found));
    DisciplinedThen(directory, lookups + Lookup(2, other) + Identification(3, found), Finish(1));
    DisciplinedThen(directory, lookups + Lookup(2, other) + Identification(3, found) + Finish(1), Finish(2));
  }

  /** Two services of one name, identified between the two reads of an event
      task each, and the second call leaves no trace, not even under its raw
      IP: the run is disciplined and its relation is not the expected one. */
  lemma AmbiguousNamesDrop(directory: Directory, source: Ipv4, ip: Ipv4, other: Ipv4)
    requires Proper(directory) && Ipv4Text(source) in directory
    requires Ipv4Text(ip) in directory && Ipv4Text(other) in directory
    requires source != ip && source != other
    requires directory[Ipv4Text(ip)].service == directory[Ipv4Text(other)].service != ""
    requires directory[Ipv4Text(ip)].node != directory[Ipv4Text(other)].node
    ensures var steps := MixedSteps(Serial.MessageOf(directory, Ipv4Text(source)), Serial.Request(source, ip),
                                    Serial.Request(source, other),
                                    [Serial.MessageOf(directory, Ipv4Text(ip)),
                                     Serial.MessageOf(directory, Ipv4Text(other))]);
            && Disciplined(directory, steps) && Run(steps).tasks == map[] && Incomplete(directory, steps)
  {
    var s, x, y := Ipv4Text(source), Ipv4Text(ip), Ipv4Text(other);
    var message := Serial.MessageOf(directory, s);
    var found := [Serial.MessageOf(directory, x), Serial.MessageOf(directory, y)];
    var input, second := Serial.Request(source, ip), Serial.Request(source, other);
    Distinct(source, ip);
    Distinct(source, other);
    MixedLeads(message, input, second, found);
    MixedDisciplined(directory, message, input, second, found);
    var c := INITIAL.(pods := AllPods(message, found));
    FirstRecorded(c, input, message.info);
    OneLeft(directory, RecordedAs(c, input, message.info, Stale(x)), CallOf(input), CallOf(second));
  }

  lemma Distinct(ip: Ipv4, other: Ipv4)
    requires ip != other
    ensures Ipv4Text(ip) != Ipv4Text(other)
  {
    if Ipv4Text(ip) == Ipv4Text(other) {
      Ipv4TextInjective(ip, other);
    }
  }

  /** The race, and then an event under the key it left. */
  lemma RaceThenEvent(source: PodMessage, input: Input, found: PodMessage, second: Input)
    requires TwoEvents(source, input, second) && found.ip == DestinationIp(input) != DestinationIp(second)
    requires found.info.serviceName == DestinationIp(second)
    ensures var c := INITIAL.(pods := map[source.ip := source.info, found.ip := found.info]);
            Leads(INITIAL, RaceSteps(source, input, found) + Whole(2, second),
                  RecordedAs(c, input, source.info, Stale(DestinationIp(input))), {CallOf(input), CallOf(second)})
  {
    var c := INITIAL.(pods := map[source.ip := source.info, found.ip := found.info]);
    var d := RecordedAs(c, input, source.info, Stale(DestinationIp(input)));
    Ipv4TextIsIpv4(second.destination);
    RaceLeads(source, input, found);
    RawKey(c.pods, input, source.info, DestinationIp(second));
    RawKey(c.pods, second, source.info, DestinationIp(second));
    Retaken(c, input, second, source.info);
    RecordedBeside(c, c.tasks, input, source.info, Stale(DestinationIp(input)));
    WholeLeads(d, 2, second, source.info);
    LeadsThen(INITIAL, RaceSteps(source, input, found), d, {CallOf(input)}, Whole(2, second), d, {CallOf(second)});
  }

  /** A pod behind a service that is named like an address: it is identified
      between the two reads of a task, and a call to that address is dropped. */
  lemma AddressNamesDrop(directory: Directory, source: Ipv4, ip: Ipv4, other: Ipv4)
    requires Proper(directory) && Ipv4Text(source) in directory && Ipv4Text(ip) in directory
    requires source != ip && source != other && ip != other
    requires directory[Ipv4Text(ip)].service == Ipv4Text(other)
    ensures var steps := RaceSteps(Serial.MessageOf(directory, Ipv4Text(source)), Serial.Request(source, ip),
                                   Serial.MessageOf(directory, Ipv4Text(ip))) + Whole(2, Serial.Request(source, other));
            && Disciplined(directory, steps) && Run(steps).tasks == map[] && Incomplete(directory, steps)
  {
    var s, x := Ipv4Text(source), Ipv4Text(ip);
    var message, found := Serial.MessageOf(directory, s), Serial.MessageOf(directory, x);
    var input, second := Serial.Request(source, ip), Serial.Request(source, other);
    Distinct(source, ip);
    Distinct(source, other);
    Distinct(ip, other);
    RaceThenEvent(message, input, found, second);
    RaceDisciplined(directory, message, input, found, second);
    var c := INITIAL.(pods := map[s := message.info, x := found.info]);
    FirstRecorded(c, input, message.info);
    OneLeft(directory, RecordedAs(c, input, message.info, Stale(x)), CallOf(input), CallOf(second));
  }

  lemma RaceDisciplined(directory: Directory, source: PodMessage, input: Input, found: PodMessage, second: Input)
    requires MessagesConform(directory, [source]) && MessagesConform(directory, [found])
    requires input.host == DestinationIp(input) && second.host == DestinationIp(second)
    ensures Disciplined(directory, RaceSteps(source, input, found) + Whole(2, second))
  {
    SegmentsDisciplined(directory, 0, [source], input);
    SegmentsDisciplined(directory, 1, [source], input);
    SegmentsDisciplined(directory, 2, [found], second);
    DisciplinedThen(directory, Identification(0, [source]), Lookup(1, input));
    DisciplinedThen(directory, Identification(0, [source]) + Lookup(1, input), Identification(2, [found]));
    DisciplinedThen(directory, Identification(0, [source]) + Lookup(1, input) + Identification(2, [found]), Finish(1));
    DisciplinedThen(directory, RaceSteps(source, input, found), Whole(2, second));
  }

  /** Every interleaving depicts exactly the counted calls if and only if the
      directory keeps edge keys apart: namespace and service name fix the
      application, and, seen from a third pod, a service name alone fixes the
      node and is no address but the pod's own. */
  lemma DepictsIffFaithful(directory: Directory)
    requires Proper(directory) && forall ip :: ip in directory ==> IsIpv4(ip)
    ensures Faithful(true, directory) <==>
              forall steps :: Disciplined(directory, steps) ==>
                Depicted(directory, Run(steps)) == Expected(directory, Run(steps).pods.Keys, Counted(steps))
  {
    if Faithful(true, directory) {
      forall steps | Disciplined(directory, steps)
        ensures Depicted(directory, Run(steps)) == Expected(directory, Run(steps).pods.Keys, Counted(steps))
      {
        RunDepicts(directory, steps);
      }
    } else {
      var steps := IncompleteRun(directory);
      assert Disciplined(directory, steps);
    }
  }

  lemma IncompleteRun(directory: Directory) returns (steps: seq<Step>)
    requires Proper(directory) && !Faithful(true, directory) && forall ip :: ip in directory ==> IsIpv4(ip)
    ensures Disciplined(directory, steps) && Incomplete(directory, steps)
  {
    if !Determined(directory) {
      var actions := Serial.Undetermined(directory);
      steps := Schedule(actions);
      SerialScheduled(actions);
      OrderlyDisciplined(directory, actions);
      var c := Run(steps);
      assert Pairs(c.graph) + PendingPairs(c.tasks) == Pairs(c.graph);
    } else {
      var s, x :| s in directory && x in directory && s != x && directory[x].service != ""
        && !((forall y :: y in directory && y != s && directory[y].service == directory[x].service ==>
                directory[y].node == directory[x].node)
             && (IsIpv4(directory[x].service) ==> directory[x].service == x || directory[x].service == s));
      steps := IncompleteRace(directory, s, x);
    }
  }

  /** One service name in front of two nodes. */
  ghost predicate Ambiguous(id: Identity, other: Identity) {
    other.service == id.service && other.node != id.node
  }

  lemma IncompleteRace(directory: Directory, s: string, x: string) returns (steps: seq<Step>)
    requires Proper(directory) && forall ip :: ip in directory ==> IsIpv4(ip)
    requires s in directory && x in directory && s != x && directory[x].service != ""
    requires !((forall y :: y in directory && y != s && directory[y].service == directory[x].service ==>
                  directory[y].node == directory[x].node)
               && (IsIpv4(directory[x].service) ==> directory[x].service == x || directory[x].service == s))
    ensures Disciplined(directory, steps) && Incomplete(directory, steps)
  {
    var source := Ipv4Printed(s);
    var ip := Ipv4Printed(x);
    if y :| y in directory && y != s && Ambiguous(directory[x], directory[y]) {
      var other := Ipv4Printed(y);
      steps := MixedSteps(Serial.MessageOf(directory, s), Serial.Request(source, ip), Serial.Request(source, other),
                          [Serial.MessageOf(directory, x), Serial.MessageOf(directory, y)]);
      AmbiguousNamesDrop(directory, source, ip, other);
    } else {
      var other := Ipv4Printed(directory[x].service);
      steps := RaceSteps(Serial.MessageOf(directory, s), Serial.Request(source, ip), Serial.MessageOf(directory, x))
               + Whole(2, Serial.Request(source, other));
      AddressNamesDrop(directory, source, ip, other);
    }
  }

  /** A key that names an identified destination can only have been taken for
      the same dependency, races or not. */
  lemma SameNamedKey(directory: Directory, known: set<string>, call: Call, other: Call, key: string)
    requires Proper(directory) && Determined(directory) && call.1 in known && call.1 in directory
    requires call.0 in known && call.0 in directory && key == Serial.DirectoryKey(directory, call)
    requires KeyFits(true, directory, known, other, key)
    ensures Meant(directory, known, call) == Meant(directory, known, other)
  {
    var source, target := directory[call.0], directory[call.1];
    var namespace, service := KeyTarget(true, directory, known, other, key);
    EdgeKeyInjective(source.node.namespace, source.service, target.node.namespace, TargetService(target),
                     directory[other.0].node.namespace, directory[other.0].service, namespace, service);
    SamePlainTarget(directory, known, call, other, namespace, service);
  }

  /** What a race dropped is not lost for good: after any interleaving, the next
      undisturbed event to the identified destination leaves its dependency in
      the graph, whatever names collide elsewhere. */
  lemma RetryRecovers(directory: Directory, steps: seq<Step>, input: Input)
    requires Proper(directory) && Determined(directory) && Disciplined(directory, steps)
    requires input.host == DestinationIp(input) && SourcePod(Run(steps).pods, input).Some?
    requires DestinationIp(input) in Run(steps).pods
    ensures var c := Run(steps);
            Meant(directory, c.pods.Keys, CallOf(input)) in Depicted(directory, RecordEvent(c, input))
  {
    var c, known, call := Run(steps), Run(steps).pods.Keys, CallOf(input);
    RunTracked(directory, steps);
    RunSound(steps);
    Serial.EventDestination(directory, c, input);
    assert Conforms(directory, call.0, c.pods[call.0]) && Conforms(directory, call.1, c.pods[call.1]);
    var pod, key := SourcePod(c.pods, input).value, Serial.DirectoryKey(directory, call);
    var flow := FlowOf(input, pod, Now(directory, known, call.1));
    assert KeyOf(c.pods, input, pod, Now(directory, known, call.1)) == key;
    if key in c.seen {
      var other := SupportedBy(directory, known, Depicted(directory, c), Counted(steps), key);
      SameNamedKey(directory, known, call, other, key);
    } else {
      CallPairs(c.graph, flow, call.0, call.1);
      PairDepicted(directory, RecordEvent(c, input), (flow.source, flow.destination));
    }
  }

  lemma SupportedBy(directory: Directory, known: set<string>, view: set<Pair>, calls: set<Call>, key: string)
    returns (call: Call)
    requires Supported(true, directory, known, view, calls, key)
    ensures KeyFits(true, directory, known, call, key) && Meant(directory, known, call) in view
  {
    call :| call in calls && KeyFits(true, directory, known, call, key) && Meant(directory, known, call) in view;
  }

  lemma PairDepicted(directory: Directory, c: Core, pair: Pair)
    requires pair in Pairs(c.graph) && pair.1.namespace != UNKNOWN
    ensures pair in Depicted(directory, c)
  {
    assert (pair.0, NowId(directory, c.pods.Keys, pair.1)) == pair;
  }

  ghost predicate SourceNamed(task: Task) {
    match task
    case Received(input) => true
    case SourceKnown(input, pod) => pod.namespace != UNKNOWN
    case RouteMissed(input, pod) => pod.namespace != UNKNOWN
    case DestinationKnown(input, pod, destination) => pod.namespace != UNKNOWN
    case Keyed(input, key, flow) => flow.source.namespace != UNKNOWN
    case Claimed(input, key, flow) => flow.source.namespace != UNKNOWN
    case Applying(todo) => Resync.Known(todo)
    case Resolving(message, todo) => message.info.namespace != UNKNOWN && Resync.Known(todo)
  }

  ghost predicate PodsNamed(pods: map<string, PodInfo>) {
    forall ip :: ip in pods ==> pods[ip].namespace != UNKNOWN
  }

  /** No dependency starts at a node of namespace "unknown". */
  ghost predicate SourcesNamed(pairs: set<Pair>) {
    forall p :: p in pairs ==> p.0.namespace != UNKNOWN
  }

  lemma NextSourceNamed(c: Core, task: Task)
    requires PodsNamed(c.pods) && SourceNamed(task)
    ensures NextTask(c, task).Some? ==> SourceNamed(NextTask(c, task).value)
    ensures PodsNamed(PodsAfter(c.pods, task))
  {
  }

  lemma GraphSourcesNamed(g: Graph, task: Task)
    requires Sound(g) && SourcesNamed(Pairs(g)) && SourceNamed(task)
    ensures SourcesNamed(Pairs(GraphAfter(g, task)))
  {
    match task
    case Claimed(input, key, flow) => CallPairs(g, flow, SourceIp(input), DestinationIp(input));
    case Resolving(message, todo) =>
      HealedPairs(g, message.ip, NodeId(message.info.applicationName, message.info.namespace));
    case _ =>
  }

  /** The pod messages of the step name no namespace "unknown". */
  ghost predicate NamesPods(step: Step) {
    step.Spawn? && step.task.Applying? ==> Resync.Known(step.task.todo)
  }

  ghost predicate AllNamed(c: Core) {
    PodsNamed(c.pods) && SourcesNamed(Pairs(c.graph)) && forall id :: id in c.tasks ==> SourceNamed(c.tasks[id])
  }

  lemma StepNamed(c: Core, step: Step)
    requires AllNamed(c) && Sound(c.graph) && NamesPods(step)
    ensures AllNamed(Apply(c, step))
  {
    if step.Advance? && step.id in c.tasks {
      NextSourceNamed(c, c.tasks[step.id]);
      GraphSourcesNamed(c.graph, c.tasks[step.id]);
    } else if step.AttachEvent? {
      EventSound(c.graph, step.node, step.event);
    }
  }

  lemma {:induction false} RunNamed(steps: seq<Step>)
    requires forall i :: 0 <= i < |steps| ==> NamesPods(steps[i])
    ensures AllNamed(Run(steps))
  {
    if steps == [] {
      assert Pairs(EMPTY) == {};
    } else {
      RunNamed(steps[..|steps| - 1]);
      RunSound(steps[..|steps| - 1]);
      StepNamed(Run(steps[..|steps| - 1]), steps[|steps| - 1]);
    }
  }

  /** Raw IPs never appear as sources: in every run whose pod messages name
      namespaces other than "unknown", with deletions, any hosts and any routes,
      no flow of the graph and no flow about to enter it starts there. */
  lemma SourcesIdentified(steps: seq<Step>)
    requires forall i :: 0 <= i < |steps| ==> NamesPods(steps[i])
    ensures SourcesNamed(Pairs(Run(steps).graph) + PendingPairs(Run(steps).tasks))
  {
    RunNamed(steps);
  }
}
