/** The dependency relation under every interleaving of event tasks and pod
    handlers, for runs in which every pod IP keeps one identity. */
module Interleaving {
  import opened Graph
  import opened Hosts
  import opened Ingestion
  import opened ArrivalOrder

  function CallOf(input: Input): Call { (SourceIp(input), DestinationIp(input)) }

  ghost predicate MessagesConform(directory: Directory, messages: seq<PodMessage>) {
    forall i :: 0 <= i < |messages| ==> Conforms(directory, messages[i].ip, messages[i].info)
  }

  /** Hosts are the literal destination IP, messages follow the directory, no
      pod is deleted and no route is keyed by an IP. */
  ghost predicate Allowed(directory: Directory, step: Step) {
    match step
    case Spawn(id, Received(input)) => input.host == DestinationIp(input)
    case Spawn(id, Applying(todo)) => MessagesConform(directory, todo)
    case DeletePod(ip) => false
    case PushRoute(domain, to) => !IsIpv4(domain)
    case _ => true
  }

  ghost predicate Disciplined(directory: Directory, steps: seq<Step>) {
    forall i :: 0 <= i < |steps| ==> Allowed(directory, steps[i])
  }

  /** The call whose task reaches the claim by this step, won or lost. */
  function CountedBy(c: Core, step: Step): set<Call> {
    if step.Advance? && step.id in c.tasks && c.tasks[step.id].Keyed? then {CallOf(c.tasks[step.id].input)} else {}
  }

  function CountedFrom(c: Core, steps: seq<Step>): set<Call> {
    if steps == [] then {}
    else
      var before := steps[..|steps| - 1];
      CountedFrom(c, before) + CountedBy(Continue(c, before), steps[|steps| - 1])
  }

  /** The calls whose task has reached the claim during a run. */
  function Counted(steps: seq<Step>): set<Call> { CountedFrom(INITIAL, steps) }

  ghost predicate DestinationFits(directory: Directory, known: set<string>, call: Call, destination: NodeId) {
    || (destination == Stale(call.1) && call.0 != call.1)
    || (call.1 in known && call.1 in directory && destination == directory[call.1].node)
  }

  /** An event task that has found its source pod. */
  ghost predicate SourceFits(directory: Directory, known: set<string>, input: Input, pod: PodInfo) {
    SourceIp(input) in known && Conforms(directory, SourceIp(input), pod)
  }

  ghost predicate TaskFits(directory: Directory, known: set<string>, task: Task) {
    match task
    case Received(input) => input.host == DestinationIp(input)
    case SourceKnown(input, pod) => input.host == DestinationIp(input) && SourceFits(directory, known, input, pod)
    case RouteMissed(input, pod) => input.host == DestinationIp(input) && SourceFits(directory, known, input, pod)
    case DestinationKnown(input, pod, destination) =>
      SourceFits(directory, known, input, pod) && DestinationFits(directory, known, CallOf(input), destination)
    case Keyed(input, key, flow) => FlowFits(directory, known, input, key, flow)
    case Claimed(input, key, flow) => FlowFits(directory, known, input, key, flow)
    case Applying(todo) => MessagesConform(directory, todo)
    case Resolving(message, todo) =>
      Conforms(directory, message.ip, message.info) && message.ip in known && MessagesConform(directory, todo)
  }

  ghost predicate FlowFits(directory: Directory, known: set<string>, input: Input, key: string, flow: Flow) {
    && flow.source == NodeOf(directory, SourceIp(input))
    && DestinationFits(directory, known, CallOf(input), flow.destination)
    && KeyFits(true, directory, known, CallOf(input), key)
  }

  lemma TaskFitsGrows(directory: Directory, known: set<string>, known': set<string>, task: Task)
    requires TaskFits(directory, known, task) && known <= known'
    ensures TaskFits(directory, known', task)
  {
    if task.Keyed? || task.Claimed? {
      KeyFitsGrows(true, directory, known, known', CallOf(task.input), task.key);
    }
  }

  lemma BareHost(input: Input)
    requires input.host == DestinationIp(input)
    ensures StripPort(input.host) == DestinationIp(input) && IsIpv4(DestinationIp(input))
    ensures ParseK8sHost(StripPort(input.host)) == Stale(DestinationIp(input))
  {
    Ipv4TextIsIpv4(input.destination);
    assert StripPort(input.host) == input.host;
  }

  lemma DestinationResolved(directory: Directory, pods: map<string, PodInfo>, input: Input)
    requires Proper(directory) && PodsConform(directory, pods) && input.host == DestinationIp(input)
    ensures UnroutedDestination(pods, input) == Now(directory, pods.Keys, DestinationIp(input))
  {
    BareHost(input);
    var ip := DestinationIp(input);
    if ip in pods {
      assert Conforms(directory, ip, pods[ip]);
      assert pods[ip].applicationName == directory[ip].node.applicationName != "";
    }
  }

  /** The namespace and service the key of an event task gives its destination. */
  lemma TargetComputed(directory: Directory, pods: map<string, PodInfo>, input: Input, destination: NodeId)
    requires Proper(directory) && PodsConform(directory, pods)
    requires DestinationFits(directory, pods.Keys, CallOf(input), destination)
    ensures TargetFits(true, directory, pods.Keys, CallOf(input), destination.namespace,
                       DestinationService(pods, input, destination))
  {
    var ip := DestinationIp(input);
    if ip in pods {
      assert Conforms(directory, ip, pods[ip]);
      assert pods[ip].serviceName == directory[ip].service;
    }
  }

  lemma KeyComputed(directory: Directory, pods: map<string, PodInfo>, input: Input, pod: PodInfo, destination: NodeId)
    requires Proper(directory) && PodsConform(directory, pods) && SourceFits(directory, pods.Keys, input, pod)
    requires DestinationFits(directory, pods.Keys, CallOf(input), destination)
    ensures FlowFits(directory, pods.Keys, input, KeyOf(pods, input, pod, destination), FlowOf(input, pod, destination))
  {
    Ipv4TextIsIpv4(input.destination);
    TargetComputed(directory, pods, input, destination);
    assert pod.namespace == directory[SourceIp(input)].node.namespace;
    assert pod.serviceName == directory[SourceIp(input)].service;
  }

  lemma NextTaskFits(directory: Directory, c: Core, task: Task)
    requires Proper(directory) && PodsConform(directory, c.pods) && TaskFits(directory, c.pods.Keys, task)
    requires RoutesFit(c.routes)
    ensures var next := NextTask(c, task); next.Some? ==> TaskFits(directory, PodsAfter(c.pods, task).Keys, next.value)
  {
    match task
    case Received(input) =>
      if SourceIp(input) in c.pods {
        assert Conforms(directory, SourceIp(input), c.pods[SourceIp(input)]);
      }
    case SourceKnown(input, pod) => BareHost(input);
    case RouteMissed(input, pod) => DestinationResolved(directory, c.pods, input);
    case DestinationKnown(input, pod, destination) => KeyComputed(directory, c.pods, input, pod, destination);
    case _ =>
  }

  type Tasks = map<nat, Task>

  ghost predicate TasksFit(directory: Directory, known: set<string>, tasks: Tasks) {
    forall id :: id in tasks ==> TaskFits(directory, known, tasks[id])
  }

  /** The pairs of the calls that won their key and await the graph step. */
  ghost function PendingPairs(tasks: Tasks): set<Pair> {
    set id | id in tasks && tasks[id].Claimed? :: (tasks[id].flow.source, tasks[id].flow.destination)
  }

  lemma PendingQuiet(tasks: Tasks, id: nat, next: Option<Task>)
    requires id in tasks ==> !tasks[id].Claimed?
    requires next.Some? ==> !next.value.Claimed?
    ensures PendingPairs(Reschedule(tasks, id, next)) == PendingPairs(tasks)
  {
    var after := Reschedule(tasks, id, next);
    forall j | j in tasks && tasks[j].Claimed? ensures j in after && after[j] == tasks[j] {
    }
    forall j | j in after && after[j].Claimed? ensures j in tasks && after[j] == tasks[j] {
    }
  }

  lemma PendingClaim(tasks: Tasks, id: nat, task: Task)
    requires id in tasks && !tasks[id].Claimed? && task.Claimed?
    ensures PendingPairs(tasks[id := task]) == PendingPairs(tasks) + {(task.flow.source, task.flow.destination)}
  {
    var after := tasks[id := task];
    forall j | j in tasks && tasks[j].Claimed? ensures j in after && after[j] == tasks[j] {
    }
    assert after[id].Claimed?;
  }

  lemma PendingRecord(tasks: Tasks, id: nat)
    requires id in tasks && tasks[id].Claimed?
    ensures PendingPairs(tasks) == PendingPairs(tasks - {id}) + {(tasks[id].flow.source, tasks[id].flow.destination)}
  {
    var after := tasks - {id};
    forall p | p in PendingPairs(tasks)
      ensures p in PendingPairs(after) + {(tasks[id].flow.source, tasks[id].flow.destination)}
    {
      var j :| j in tasks && tasks[j].Claimed? && p == (tasks[j].flow.source, tasks[j].flow.destination);
      if j != id {
        assert j in after && after[j].Claimed?;
      }
    }
    forall j | j in after && after[j].Claimed? ensures j in tasks && after[j] == tasks[j] {
    }
  }

  ghost predicate RoutesFit(routes: map<string, NodeId>) {
    forall domain :: domain in routes ==> !IsIpv4(domain)
  }

  /** The state of a disciplined run after counting `calls`. */
  ghost predicate Tracked(directory: Directory, c: Core, calls: set<Call>) {
    && RoutesFit(c.routes)
    && PodsConform(directory, c.pods)
    && TasksFit(directory, c.pods.Keys, c.tasks)
    && Tracks(true, directory, c.pods.Keys, Pairs(c.graph) + PendingPairs(c.tasks), c.seen, calls)
  }

  lemma PodsAfterConform(directory: Directory, pods: map<string, PodInfo>, task: Task)
    requires PodsConform(directory, pods) && TaskFits(directory, pods.Keys, task)
    ensures PodsConform(directory, PodsAfter(pods, task))
    ensures pods.Keys <= PodsAfter(pods, task).Keys
  {
  }

  lemma TasksFitAfter(directory: Directory, c: Core, id: nat, task: Task)
    requires Proper(directory) && PodsConform(directory, c.pods) && RoutesFit(c.routes)
    requires TasksFit(directory, c.pods.Keys, c.tasks) && id in c.tasks && c.tasks[id] == task
    ensures TasksFit(directory, PodsAfter(c.pods, task).Keys, Reschedule(c.tasks, id, NextTask(c, task)))
  {
    NextTaskFits(directory, c, task);
    PodsAfterConform(directory, c.pods, task);
    forall j | j in c.tasks && j != id ensures TaskFits(directory, PodsAfter(c.pods, task).Keys, c.tasks[j]) {
      TaskFitsGrows(directory, c.pods.Keys, PodsAfter(c.pods, task).Keys, c.tasks[j]);
    }
  }

  lemma DestinationMeans(directory: Directory, known: set<string>, call: Call, destination: NodeId)
    requires Proper(directory) && DestinationFits(directory, known, call, destination)
    ensures NowId(directory, known, destination) == Now(directory, known, call.1)
  {
  }

  lemma WinTracks(directory: Directory, known: set<string>, pairs: set<Pair>, tasks: Tasks, seen: set<string>,
                  calls: set<Call>, id: nat, task: Task)
    requires Tracks(true, directory, known, pairs + PendingPairs(tasks), seen, calls) && Proper(directory)
    requires id in tasks && tasks[id].Keyed? && task.Claimed? && TaskFits(directory, known, task)
    ensures Tracks(true, directory, known, pairs + PendingPairs(tasks[id := task]), seen + {task.key},
                   calls + {CallOf(task.input)})
  {
    var pair := (task.flow.source, task.flow.destination);
    DestinationMeans(directory, known, CallOf(task.input), task.flow.destination);
    Won(true, directory, known, pairs + PendingPairs(tasks), seen, calls, CallOf(task.input), task.key, pair);
    PendingClaim(tasks, id, task);
    assert pairs + PendingPairs(tasks) + {pair} == pairs + PendingPairs(tasks[id := task]);
  }

  lemma LoseTracks(directory: Directory, known: set<string>, pairs: set<Pair>, tasks: Tasks, seen: set<string>,
                   calls: set<Call>, id: nat)
    requires Tracks(true, directory, known, pairs + PendingPairs(tasks), seen, calls) && Proper(directory)
    requires id in tasks && tasks[id].Keyed? && tasks[id].key in seen && TaskFits(directory, known, tasks[id])
    ensures Tracks(true, directory, known, pairs + PendingPairs(tasks - {id}), seen, calls + {CallOf(tasks[id].input)})
  {
    Lost(true, directory, known, pairs + PendingPairs(tasks), seen, calls, CallOf(tasks[id].input), tasks[id].key);
    PendingQuiet(tasks, id, None);
  }

  lemma AlreadySeen(seen: set<string>, key: string)
    requires key in seen
    ensures seen + {key} == seen
  {
  }

  /** Where a task goes from the claim. */
  function AfterClaim(seen: set<string>, task: Task): Option<Task>
    requires task.Keyed?
  {
    if task.key in seen then None else Some(Claimed(task.input, task.key, task.flow))
  }

  lemma ClaimTracks(directory: Directory, known: set<string>, pairs: set<Pair>, tasks: Tasks, seen: set<string>,
                    calls: set<Call>, id: nat, task: Task)
    requires Tracks(true, directory, known, pairs + PendingPairs(tasks), seen, calls) && Proper(directory)
    requires id in tasks && tasks[id] == task && task.Keyed? && TaskFits(directory, known, task)
    ensures Tracks(true, directory, known, pairs + PendingPairs(Reschedule(tasks, id, AfterClaim(seen, task))),
                   seen + {task.key}, calls + {CallOf(task.input)})
  {
    if task.key in seen {
      LoseTracks(directory, known, pairs, tasks, seen, calls, id);
      AlreadySeen(seen, task.key);
    } else {
      WinTracks(directory, known, pairs, tasks, seen, calls, id, Claimed(task.input, task.key, task.flow));
    }
  }

  lemma RecordMoves(recorded: set<Pair>, pending: set<Pair>, pair: Pair)
    ensures recorded + {pair} + pending == recorded + (pending + {pair})
  {
  }

  lemma RecordTracks(directory: Directory, c: Core, calls: set<Call>, id: nat, task: Task)
    requires Tracked(directory, c, calls) && Sound(c.graph)
    requires id in c.tasks && c.tasks[id] == task && task.Claimed?
    ensures Tracks(true, directory, c.pods.Keys, Pairs(GraphAfter(c.graph, task)) + PendingPairs(c.tasks - {id}),
                   c.seen, calls)
  {
    CallPairs(c.graph, task.flow, SourceIp(task.input), DestinationIp(task.input));
    PendingRecord(c.tasks, id);
    RecordMoves(Pairs(c.graph), PendingPairs(c.tasks - {id}), (task.flow.source, task.flow.destination));
  }

  lemma ResolveTracks(directory: Directory, c: Core, calls: set<Call>, id: nat, task: Task)
    requires Tracked(directory, c, calls) && Sound(c.graph) && Proper(directory)
    requires id in c.tasks && c.tasks[id] == task && task.Resolving?
    ensures Tracks(true, directory, c.pods.Keys,
                   Pairs(GraphAfter(c.graph, task)) + PendingPairs(c.tasks[id := Applying(task.todo)]), c.seen, calls)
  {
    var ip := task.message.ip;
    assert TaskFits(directory, c.pods.Keys, task);
    HealedPairs(c.graph, ip, directory[ip].node);
    Resolved(directory, c.pods.Keys, Pairs(c.graph), PendingPairs(c.tasks), calls, ip);
    PendingQuiet(c.tasks, id, Some(Applying(task.todo)));
  }

  lemma IdentifyTracks(directory: Directory, c: Core, calls: set<Call>, id: nat, task: Task)
    requires Tracked(directory, c, calls) && Proper(directory)
    requires id in c.tasks && c.tasks[id] == task && task.Applying?
    ensures Tracks(true, directory, PodsAfter(c.pods, task).Keys,
                   Pairs(c.graph) + PendingPairs(Reschedule(c.tasks, id, NextTask(c, task))), c.seen, calls)
  {
    PendingQuiet(c.tasks, id, NextTask(c, task));
    assert TaskFits(directory, c.pods.Keys, task);
    if task.todo != [] {
      var ip := task.todo[0].ip;
      Identified(true, directory, c.pods.Keys, Pairs(c.graph) + PendingPairs(c.tasks), c.seen, calls, ip);
      assert PodsAfter(c.pods, task).Keys == c.pods.Keys + {ip};
    }
  }

  lemma ReadTracks(directory: Directory, c: Core, calls: set<Call>, id: nat, task: Task)
    requires Tracked(directory, c, calls) && id in c.tasks && c.tasks[id] == task
    requires !task.Keyed? && !task.Claimed? && !task.Applying? && !task.Resolving?
    ensures GraphAfter(c.graph, task) == c.graph && SeenAfter(c.seen, task) == c.seen
    ensures PodsAfter(c.pods, task) == c.pods
    ensures Tracks(true, directory, c.pods.Keys,
                   Pairs(c.graph) + PendingPairs(Reschedule(c.tasks, id, NextTask(c, task))), c.seen, calls)
  {
    PendingQuiet(c.tasks, id, NextTask(c, task));
  }

  lemma ProgressTracked(directory: Directory, c: Core, calls: set<Call>, id: nat, task: Task)
    requires Tracked(directory, c, calls) && Sound(c.graph) && Proper(directory)
    requires id in c.tasks && c.tasks[id] == task
    ensures Tracked(directory, Progress(c, id, task), calls + CountedBy(c, Advance(id)))
  {
    TasksFitAfter(directory, c, id, task);
    PodsAfterConform(directory, c.pods, task);
    if !task.Keyed? {
      assert calls + CountedBy(c, Advance(id)) == calls;
    }
    match task
    case Keyed(input, key, flow) =>
      ClaimTracks(directory, c.pods.Keys, Pairs(c.graph), c.tasks, c.seen, calls, id, task);
    case Claimed(input, key, flow) => RecordTracks(directory, c, calls, id, task);
    case Resolving(message, todo) => ResolveTracks(directory, c, calls, id, task);
    case Applying(todo) => IdentifyTracks(directory, c, calls, id, task);
    case _ => ReadTracks(directory, c, calls, id, task);
  }

  lemma StepTracked(directory: Directory, c: Core, calls: set<Call>, step: Step)
    requires Tracked(directory, c, calls) && Sound(c.graph) && Proper(directory)
    requires Allowed(directory, step)
    ensures Tracked(directory, Apply(c, step), calls + CountedBy(c, step))
  {
    if step.Advance? && step.id in c.tasks {
      ProgressTracked(directory, c, calls, step.id, c.tasks[step.id]);
    } else {
      assert calls + CountedBy(c, step) == calls;
      match step
      case Spawn(id, task) =>
        if id !in c.tasks && (task.Received? || task.Applying?) {
          PendingQuiet(c.tasks, id, Some(task));
        }
      case AttachEvent(node, event) => EventSound(c.graph, node, event);
      case _ =>
    }
  }

  lemma {:induction false} RunTracked(directory: Directory, steps: seq<Step>)
    requires Proper(directory) && Disciplined(directory, steps)
    ensures Tracked(directory, Run(steps), Counted(steps))
  {
    if steps != [] {
      var before := steps[..|steps| - 1];
      RunTracked(directory, before);
      RunSound(before);
      StepTracked(directory, Run(before), Counted(before), steps[|steps| - 1]);
    }
  }

  /** What a run depicts: the graph and the tasks about to update it, raw IPs of
      identified pods looked through. */
  ghost function Depicted(directory: Directory, c: Core): set<Pair> {
    View(directory, c.pods.Keys, Pairs(c.graph) + PendingPairs(c.tasks))
  }

  /** Under every interleaving, no dependency is depicted that no counted call
      stands for. */
  lemma RunInvents(directory: Directory, steps: seq<Step>)
    requires Proper(directory) && Disciplined(directory, steps)
    ensures Depicted(directory, Run(steps)) <= Expected(directory, Run(steps).pods.Keys, Counted(steps))
  {
    RunTracked(directory, steps);
  }

  /** Under every interleaving of a disciplined run, exactly the calls counted
      so far are depicted, if the directory keeps edge keys apart. */
  lemma RunDepicts(directory: Directory, steps: seq<Step>)
    requires Proper(directory) && Faithful(true, directory) && Disciplined(directory, steps)
    ensures Depicted(directory, Run(steps)) == Expected(directory, Run(steps).pods.Keys, Counted(steps))
  {
    RunTracked(directory, steps);
  }

  /** No pair ends at the raw IP of an identified pod. */
  ghost predicate Clean(known: set<string>, pairs: set<Pair>) {
    forall p :: p in pairs ==> p.1.namespace != UNKNOWN || p.1.applicationName !in known
  }

  /** With no task at the graph step, the graph itself is exact if and only if
      no flow still ends at the raw IP of an identified pod. */
  lemma ExactIffHealed(directory: Directory, steps: seq<Step>)
    requires Proper(directory) && Faithful(true, directory) && Disciplined(directory, steps)
    requires PendingPairs(Run(steps).tasks) == {}
    ensures var c := Run(steps);
            Pairs(c.graph) == Expected(directory, c.pods.Keys, Counted(steps)) <==> Clean(c.pods.Keys, Pairs(c.graph))
  {
    var c := Run(steps);
    RunTracked(directory, steps);
    assert Pairs(c.graph) + PendingPairs(c.tasks) == Pairs(c.graph);
    if Clean(c.pods.Keys, Pairs(c.graph)) {
      ViewUnchanged(directory, c.pods.Keys, Pairs(c.graph));
    }
    if Pairs(c.graph) == Expected(directory, c.pods.Keys, Counted(steps)) {
      forall p | p in Pairs(c.graph) ensures p.1.namespace != UNKNOWN || p.1.applicationName !in c.pods.Keys {
        ExpectedSettled(directory, c.pods.Keys, Counted(steps), p);
      }
    }
  }

  /** What is expected never ends at the raw IP of an identified pod. */
  lemma ExpectedSettled(directory: Directory, known: set<string>, calls: set<Call>, p: Pair)
    requires Proper(directory) && known <= directory.Keys && p in Expected(directory, known, calls)
    ensures p.1.namespace != UNKNOWN || p.1.applicationName !in known
  {
    var call :| call in calls && p == Meant(directory, known, call);
  }

  lemma ViewUnchanged(directory: Directory, known: set<string>, pairs: set<Pair>)
    requires Clean(known, pairs)
    ensures View(directory, known, pairs) == pairs
  {
    forall p | p in pairs ensures p in View(directory, known, pairs) {
      assert (p.0, NowId(directory, known, p.1)) == p;
    }
  }

  /** The step records a flow to the raw node of `ip`. */
  ghost predicate Records(c: Core, step: Step, ip: string) {
    && step.Advance? && step.id in c.tasks
    && c.tasks[step.id].Claimed? && c.tasks[step.id].flow.destination == Stale(ip)
  }

  /** The step heals the raw node of `ip`. */
  ghost predicate Resolves(c: Core, step: Step, ip: string) {
    step.Advance? && step.id in c.tasks && c.tasks[step.id].Resolving? && c.tasks[step.id].message.ip == ip
  }

  ghost predicate RecordsAt(steps: seq<Step>, i: nat, ip: string) {
    i < |steps| && Records(Run(steps[..i]), steps[i], ip)
  }

  ghost predicate ResolvesAt(steps: seq<Step>, i: nat, ip: string) {
    i < |steps| && Resolves(Run(steps[..i]), steps[i], ip)
  }

  /** The schedule records `ip` raw and never heals it afterwards. */
  ghost predicate Unhealed(steps: seq<Step>, ip: string) {
    exists i :: RecordsAt(steps, i, ip) && forall j :: ResolvesAt(steps, j, ip) ==> j <= i
  }

  ghost predicate EndsAt(pairs: set<Pair>, id: NodeId) {
    exists p :: p in pairs && p.1 == id
  }

  /** Earlier steps of a run are those of its prefix. */
  lemma PrefixAt(steps: seq<Step>, i: nat, ip: string)
    requires i + 1 < |steps|
    ensures RecordsAt(steps, i, ip) <==> RecordsAt(steps[..|steps| - 1], i, ip)
    ensures ResolvesAt(steps, i, ip) <==> ResolvesAt(steps[..|steps| - 1], i, ip)
  {
    assert steps[..|steps| - 1][..i] == steps[..i];
  }

  /** What the last step does to the schedule condition. */
  lemma UnhealedNext(steps: seq<Step>, ip: string)
    requires steps != []
    ensures var before, last := steps[..|steps| - 1], steps[|steps| - 1];
            Unhealed(steps, ip) <==>
              Records(Run(before), last, ip) || (Unhealed(before, ip) && !Resolves(Run(before), last, ip))
  {
    var n := |steps| - 1;
    var before := steps[..n];
    if Unhealed(steps, ip) && !RecordsAt(steps, n, ip) {
      var i :| RecordsAt(steps, i, ip) && forall j :: ResolvesAt(steps, j, ip) ==> j <= i;
      PrefixAt(steps, i, ip);
      assert !ResolvesAt(steps, n, ip);
      forall j | ResolvesAt(before, j, ip) ensures j <= i {
        PrefixAt(steps, j, ip);
      }
    }
    if RecordsAt(steps, n, ip) {
      assert forall j: nat :: ResolvesAt(steps, j, ip) ==> j <= n;
    } else if Unhealed(before, ip) && !ResolvesAt(steps, n, ip) {
      var i :| RecordsAt(before, i, ip) && forall j :: ResolvesAt(before, j, ip) ==> j <= i;
      PrefixAt(steps, i, ip);
      forall j | ResolvesAt(steps, j, ip) ensures j <= i {
        PrefixAt(steps, j, ip);
      }
    }
  }

  /** Healing one raw node into an identified one leaves the others. */
  lemma RenameEndsAt(pairs: set<Pair>, ip: string, healed: string, to: NodeId)
    requires to.namespace != UNKNOWN
    ensures EndsAt(RenamePairs(pairs, Stale(healed), to), Stale(ip)) <==> EndsAt(pairs, Stale(ip)) && ip != healed
  {
    var renamed := RenamePairs(pairs, Stale(healed), to);
    assert Stale(ip) == Stale(healed) <==> ip == healed;
    if EndsAt(pairs, Stale(ip)) && ip != healed {
      var p :| p in pairs && p.1 == Stale(ip);
      assert (Rename(p.0, Stale(healed), to), Rename(p.1, Stale(healed), to)) in renamed;
    }
    if EndsAt(renamed, Stale(ip)) {
      var q :| q in renamed && q.1 == Stale(ip);
      var p :| p in pairs && q == (Rename(p.0, Stale(healed), to), Rename(p.1, Stale(healed), to));
      assert p.1 == Stale(ip);
    }
  }

  /** What the graph step of a task does to the flows that end at a raw node. */
  lemma EndsAfter(directory: Directory, known: set<string>, g: Graph, task: Task, ip: string)
    requires Sound(g) && Proper(directory) && TaskFits(directory, known, task)
    ensures EndsAt(Pairs(GraphAfter(g, task)), Stale(ip)) <==>
              || (task.Claimed? && task.flow.destination == Stale(ip))
              || (EndsAt(Pairs(g), Stale(ip)) && !(task.Resolving? && task.message.ip == ip))
  {
    match task
    case Claimed(input, key, flow) => RecordEnds(g, flow, SourceIp(input), DestinationIp(input), ip);
    case Resolving(message, todo) =>
      var to := directory[message.ip].node;
      HealedPairs(g, message.ip, to);
      RenameEndsAt(Pairs(g), ip, message.ip, to);
    case _ =>
  }

  lemma RecordEnds(g: Graph, flow: Flow, sourceIp: string, destinationIp: string, ip: string)
    requires Sound(g)
    ensures EndsAt(Pairs(WithCall(g, flow, sourceIp, destinationIp)), Stale(ip))
       <==> flow.destination == Stale(ip) || EndsAt(Pairs(g), Stale(ip))
  {
    CallPairs(g, flow, sourceIp, destinationIp);
    var after := Pairs(g) + {(flow.source, flow.destination)};
    if flow.destination == Stale(ip) {
      assert (flow.source, flow.destination) in after;
    }
    if EndsAt(Pairs(g), Stale(ip)) {
      var p :| p in Pairs(g) && p.1 == Stale(ip);
      assert p in after;
    }
  }

  lemma EndsNext(directory: Directory, c: Core, step: Step, ip: string)
    requires TasksFit(directory, c.pods.Keys, c.tasks) && Sound(c.graph) && Proper(directory)
    ensures EndsAt(Pairs(Apply(c, step).graph), Stale(ip)) <==>
              Records(c, step, ip) || (EndsAt(Pairs(c.graph), Stale(ip)) && !Resolves(c, step, ip))
  {
    ApplyGraph(c, step);
    if step.Advance? && step.id in c.tasks {
      EndsAfter(directory, c.pods.Keys, c.graph, c.tasks[step.id], ip);
    } else if step.AttachEvent? {
      EventSound(c.graph, step.node, step.event);
    }
  }

  /** A flow ends at a raw node exactly if the schedule left it so. */
  lemma {:induction false} RunUnhealed(directory: Directory, steps: seq<Step>, ip: string)
    requires Proper(directory) && Disciplined(directory, steps)
    ensures EndsAt(Pairs(Run(steps).graph), Stale(ip)) <==> Unhealed(steps, ip)
  {
    if steps == [] {
      assert Pairs(EMPTY) == {};
    } else {
      var before := steps[..|steps| - 1];
      RunUnhealed(directory, before, ip);
      RunTracked(directory, before);
      RunSound(before);
      EndsNext(directory, Run(before), steps[|steps| - 1], ip);
      UnhealedNext(steps, ip);
    }
  }

  /** With no task at the graph step, the graph is exact if and only if the
      schedule heals every identified pod's IP after each step that records it
      raw. */
  lemma ExactIffScheduled(directory: Directory, steps: seq<Step>)
    requires Proper(directory) && Faithful(true, directory) && Disciplined(directory, steps)
    requires PendingPairs(Run(steps).tasks) == {}
    ensures var c := Run(steps);
            Pairs(c.graph) == Expected(directory, c.pods.Keys, Counted(steps))
            <==> forall ip, i :: ip in c.pods && RecordsAt(steps, i, ip) ==>
                   exists j :: i < j && ResolvesAt(steps, j, ip)
  {
    var c := Run(steps);
    ExactIffHealed(directory, steps);
    forall ip ensures EndsAt(Pairs(c.graph), Stale(ip)) <==> Unhealed(steps, ip) {
      RunUnhealed(directory, steps, ip);
    }
    CleanEnds(c.pods.Keys, Pairs(c.graph));
  }

  lemma CleanEnds(known: set<string>, pairs: set<Pair>)
    ensures Clean(known, pairs) <==> forall ip :: ip in known ==> !EndsAt(pairs, Stale(ip))
  {
    if !Clean(known, pairs) {
      var p :| p in pairs && p.1.namespace == UNKNOWN && p.1.applicationName in known;
      assert p.1 == Stale(p.1.applicationName);
    }
    if ip :| ip in known && EndsAt(pairs, Stale(ip)) {
      var p :| p in pairs && p.1 == Stale(ip);
    }
  }

}
