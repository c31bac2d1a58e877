/** The ingestion core as a transition system. Every network event runs in its
    own spawned task, and every pod message in its own handler; each read of a
    cache, each claim of an edge key and each update of the graph is one atomic
    step, and steps of different tasks interleave freely. */
module Ingestion {
  import opened Graph
  import opened Hosts
  import Healing

  datatype PodInfo = PodInfo(namespace: string, applicationName: string, serviceName: string, serviceType: string)

  /** One captured HTTP call. */
  datatype Input = Input(source: Ipv4, destination: Ipv4, httpMethod: string, path: string, host: string)

  datatype PodMessage = PodMessage(ip: string, info: PodInfo)

  datatype Task =
    | Received(input: Input)
    | SourceKnown(input: Input, pod: PodInfo)
    | RouteMissed(input: Input, pod: PodInfo)
    | DestinationKnown(input: Input, pod: PodInfo, destination: NodeId)
    | Keyed(input: Input, key: string, flow: Flow)
    | Claimed(input: Input, key: string, flow: Flow)
    | Applying(todo: seq<PodMessage>)
    | Resolving(message: PodMessage, todo: seq<PodMessage>)

  datatype Core = Core(pods: map<string, PodInfo>, routes: map<string, NodeId>, seen: set<string>, graph: Graph,
                       tasks: map<nat, Task>)

  const INITIAL := Core(map[], map[], {}, EMPTY, map[])

  datatype Step =
    | Spawn(id: nat, task: Task)
    | Advance(id: nat)
    | DeletePod(ip: string)
    | PushRoute(domain: string, to: NodeId)
    | AttachEvent(node: NodeId, event: K8sEvent)

  function SourceIp(input: Input): string { Ipv4Text(input.source) }

  function DestinationIp(input: Input): string { Ipv4Text(input.destination) }

  /** The source pod; health checks and unidentified sources are dropped. */
  function SourcePod(pods: map<string, PodInfo>, input: Input): Option<PodInfo> {
    if Contains(input.path, "/health") then None
    else if SourceIp(input) in pods && pods[SourceIp(input)].applicationName != "" then Some(pods[SourceIp(input)])
    else None
  }

  /** The destination when no Envoy route names it. */
  function UnroutedDestination(pods: map<string, PodInfo>, input: Input): NodeId {
    var ip := DestinationIp(input);
    if ip in pods && pods[ip].applicationName != "" then NodeId(pods[ip].applicationName, pods[ip].namespace)
    else ParseK8sHost(StripPort(input.host))
  }

  function DestinationService(pods: map<string, PodInfo>, input: Input, destination: NodeId): string {
    var ip := DestinationIp(input);
    if ip in pods && pods[ip].serviceName != "" then pods[ip].serviceName else destination.applicationName
  }

  function EdgeKey(sourceNamespace: string, sourceService: string, namespace: string, service: string): string {
    sourceNamespace + "/" + sourceService + " -> " + namespace + "/" + service
  }

  function KeyOf(pods: map<string, PodInfo>, input: Input, pod: PodInfo, destination: NodeId): string {
    EdgeKey(pod.namespace, pod.serviceName, destination.namespace, DestinationService(pods, input, destination))
  }

  function FlowOf(input: Input, pod: PodInfo, destination: NodeId): Flow {
    Flow(NodeId(pod.applicationName, pod.namespace), destination, input.path, input.httpMethod)
  }

  /** What a task is about to do, after its next atomic step. */
  function NextTask(c: Core, task: Task): Option<Task> {
    match task
    case Received(input) =>
      var pod := SourcePod(c.pods, input);
      if pod.Some? then Some(SourceKnown(input, pod.value)) else None
    case SourceKnown(input, pod) =>
      var host := StripPort(input.host);
      Some(if host in c.routes then DestinationKnown(input, pod, c.routes[host]) else RouteMissed(input, pod))
    case RouteMissed(input, pod) =>
      Some(DestinationKnown(input, pod, UnroutedDestination(c.pods, input)))
    case DestinationKnown(input, pod, destination) =>
      Some(Keyed(input, KeyOf(c.pods, input, pod, destination), FlowOf(input, pod, destination)))
    case Keyed(input, key, flow) => if key in c.seen then None else Some(Claimed(input, key, flow))
    case Claimed(input, key, flow) => None
    case Applying(todo) =>
      if todo == [] then None
      else Some(if todo[0].info.applicationName == "" then Applying(todo[1..]) else Resolving(todo[0], todo[1..]))
    case Resolving(message, todo) => Some(Applying(todo))
  }

  function PodsAfter(pods: map<string, PodInfo>, task: Task): map<string, PodInfo> {
    if task.Applying? && task.todo != [] then pods[task.todo[0].ip := task.todo[0].info] else pods
  }

  function SeenAfter(seen: set<string>, task: Task): set<string> {
    if task.Keyed? then seen + {task.key} else seen
  }

  function GraphAfter(g: Graph, task: Task): Graph {
    match task
    case Claimed(input, key, flow) => WithCall(g, flow, SourceIp(input), DestinationIp(input))
    case Resolving(message, todo) => Healed(g, message.ip, message.info.applicationName, message.info.namespace)
    case _ => g
  }

  function Reschedule(tasks: map<nat, Task>, id: nat, next: Option<Task>): map<nat, Task> {
    if next.Some? then tasks[id := next.value] else tasks - {id}
  }

  /** One atomic step of a task. */
  function Progress(c: Core, id: nat, task: Task): Core {
    Core(PodsAfter(c.pods, task), c.routes, SeenAfter(c.seen, task), GraphAfter(c.graph, task),
         Reschedule(c.tasks, id, NextTask(c, task)))
  }

  /** A step that is not enabled changes nothing, so that every sequence of
      steps is a run and every schedule is covered. */
  function Apply(c: Core, step: Step): Core {
    match step
    case Spawn(id, task) =>
      if id !in c.tasks && (task.Received? || task.Applying?) then c.(tasks := c.tasks[id := task]) else c
    case Advance(id) => if id in c.tasks then Progress(c, id, c.tasks[id]) else c
    case DeletePod(ip) => c.(pods := c.pods - {ip})
    case PushRoute(domain, to) => c.(routes := c.routes[domain := to])
    case AttachEvent(node, event) => c.(graph := WithEvent(c.graph, node, event))
  }

  function Continue(c: Core, steps: seq<Step>): Core {
    if steps == [] then c else Apply(Continue(c, steps[..|steps| - 1]), steps[|steps| - 1])
  }

  function Run(steps: seq<Step>): Core { Continue(INITIAL, steps) }

  lemma GraphAfterSound(g: Graph, task: Task)
    requires Sound(g)
    ensures Sound(GraphAfter(g, task))
  {
    match task
    case Claimed(input, key, flow) => CallSound(g, flow, SourceIp(input), DestinationIp(input));
    case Resolving(message, todo) =>
      Healing.HealedSound(g, message.ip, message.info.applicationName, message.info.namespace);
    case _ =>
  }

  /** The graph changes only at the graph steps of tasks and on attachments. */
  lemma ApplyGraph(c: Core, step: Step)
    ensures Apply(c, step).graph
         == if step.Advance? && step.id in c.tasks then GraphAfter(c.graph, c.tasks[step.id])
            else if step.AttachEvent? then WithEvent(c.graph, step.node, step.event)
            else c.graph
  {
  }

  lemma ApplySound(c: Core, step: Step)
    requires Sound(c.graph)
    ensures Sound(Apply(c, step).graph)
  {
    ApplyGraph(c, step);
    if step.Advance? && step.id in c.tasks {
      GraphAfterSound(c.graph, c.tasks[step.id]);
    } else if step.AttachEvent? {
      EventSound(c.graph, step.node, step.event);
    }
  }

  /** The structural invariant holds after every run, whatever the schedule. */
  lemma {:induction false} RunSound(steps: seq<Step>)
    ensures Sound(Run(steps).graph)
  {
    if steps != [] {
      RunSound(steps[..|steps| - 1]);
      ApplySound(Run(steps[..|steps| - 1]), steps[|steps| - 1]);
    }
  }

  /** One event handled without interruption. */
  function RecordEvent(c: Core, input: Input): Core {
    var pod := SourcePod(c.pods, input);
    if pod.None? then c
    else
      var host := StripPort(input.host);
      var destination := if host in c.routes then c.routes[host] else UnroutedDestination(c.pods, input);
      var key := KeyOf(c.pods, input, pod.value, destination);
      if key in c.seen then c
      else c.(seen := c.seen + {key},
              graph := WithCall(c.graph, FlowOf(input, pod.value, destination), SourceIp(input), DestinationIp(input)))
  }

  /** One pod identified, or re-identified, without interruption. */
  function RecordPod(c: Core, message: PodMessage): Core {
    var known := c.(pods := c.pods[message.ip := message.info]);
    if message.info.applicationName == "" then known
    else known.(graph := Healed(c.graph, message.ip, message.info.applicationName, message.info.namespace))
  }

  /** A list of pods identified one after the other. */
  function RecordPods(c: Core, messages: seq<PodMessage>): Core
    decreases |messages|
  {
    if messages == [] then c else RecordPods(RecordPod(c, messages[0]), messages[1..])
  }

  lemma {:induction false} RecordPodsConcat(c: Core, first: seq<PodMessage>, second: seq<PodMessage>)
    ensures RecordPods(c, first + second) == RecordPods(RecordPods(c, first), second)
    decreases |first|
  {
    if first == [] {
      assert first + second == second;
    } else {
      assert (first + second)[1..] == first[1..] + second;
      RecordPodsConcat(RecordPod(c, first[0]), first[1..], second);
    }
  }

  function Advances(id: nat, n: nat): seq<Step> { seq(n, i => Advance(id)) }

  lemma {:induction false} ContinueConcat(c: Core, first: seq<Step>, second: seq<Step>)
    ensures Continue(c, first + second) == Continue(Continue(c, first), second)
    decreases |second|
  {
    if second == [] {
      assert first + second == first;
    } else {
      var all := first + second;
      assert all[..|all| - 1] == first + second[..|second| - 1];
      ContinueConcat(c, first, second[..|second| - 1]);
    }
  }

  lemma ContinueCons(c: Core, step: Step, steps: seq<Step>)
    ensures Continue(c, [step] + steps) == Continue(Apply(c, step), steps)
  {
    ContinueConcat(c, [step], steps);
    assert [step][..0] == [];
  }

  lemma AdvanceOnce(c: Core, id: nat, n: nat)
    requires n > 0
    ensures Continue(c, Advances(id, n)) == Continue(Apply(c, Advance(id)), Advances(id, n - 1))
  {
    assert Advances(id, n) == [Advance(id)] + Advances(id, n - 1);
    ContinueCons(c, Advance(id), Advances(id, n - 1));
  }

  lemma {:induction false} AdvanceFinished(c: Core, id: nat, n: nat)
    requires id !in c.tasks
    ensures Continue(c, Advances(id, n)) == c
  {
    if n > 0 {
      AdvanceOnce(c, id, n);
      AdvanceFinished(c, id, n - 1);
    }
  }

  /** The core once a task at `task` has been given `n` steps in a row. */
  function Finishing(c: Core, id: nat, task: Task, n: nat): Core {
    Continue(c.(tasks := c.tasks[id := task]), Advances(id, n))
  }

  function Effect(c: Core, task: Task): Core {
    Core(PodsAfter(c.pods, task), c.routes, SeenAfter(c.seen, task), GraphAfter(c.graph, task), c.tasks)
  }

  lemma AdvanceTask(c: Core, id: nat, task: Task, n: nat)
    requires id !in c.tasks && n > 0
    ensures Finishing(c, id, task, n)
         == if NextTask(c, task).Some? then Finishing(Effect(c, task), id, NextTask(c, task).value, n - 1)
            else Effect(c, task)
  {
    var next := NextTask(c, task);
    var busy := c.(tasks := c.tasks[id := task]);
    AdvanceOnce(busy, id, n);
    assert NextTask(busy, task) == next;
    if next.Some? {
      assert c.tasks[id := task][id := next.value] == c.tasks[id := next.value];
    } else {
      assert c.tasks[id := task] - {id} == c.tasks;
      AdvanceFinished(Apply(busy, Advance(id)), id, n - 1);
    }
  }

  /** An event task scheduled without interruption does what `RecordEvent` says. */
  lemma EventTaskAtomic(c: Core, id: nat, input: Input)
    requires id !in c.tasks
    ensures Continue(c, [Spawn(id, Received(input))] + Advances(id, 6)) == RecordEvent(c, input)
  {
    ContinueCons(c, Spawn(id, Received(input)), Advances(id, 6));
    AdvanceTask(c, id, Received(input), 6);
    if SourcePod(c.pods, input).Some? {
      KnownTaskAtomic(c, id, input, SourcePod(c.pods, input).value);
    }
  }

  lemma KnownTaskAtomic(c: Core, id: nat, input: Input, pod: PodInfo)
    requires id !in c.tasks && SourcePod(c.pods, input) == Some(pod)
    ensures Finishing(c, id, SourceKnown(input, pod), 5) == RecordEvent(c, input)
  {
    AdvanceTask(c, id, SourceKnown(input, pod), 5);
    if StripPort(input.host) in c.routes {
      KeyedTaskAtomic(c, id, input, pod, c.routes[StripPort(input.host)], 4);
    } else {
      AdvanceTask(c, id, RouteMissed(input, pod), 4);
      KeyedTaskAtomic(c, id, input, pod, UnroutedDestination(c.pods, input), 3);
    }
  }

  lemma KeyedTaskAtomic(c: Core, id: nat, input: Input, pod: PodInfo, destination: NodeId, n: nat)
    requires id !in c.tasks && n >= 3
    ensures var key := KeyOf(c.pods, input, pod, destination);
            Finishing(c, id, DestinationKnown(input, pod, destination), n)
            == if key in c.seen then c
               else c.(seen := c.seen + {key},
                       graph := WithCall(c.graph, FlowOf(input, pod, destination), SourceIp(input),
                                         DestinationIp(input)))
  {
    var key, flow := KeyOf(c.pods, input, pod, destination), FlowOf(input, pod, destination);
    AdvanceTask(c, id, DestinationKnown(input, pod, destination), n);
    AdvanceTask(c, id, Keyed(input, key, flow), n - 1);
    if key in c.seen {
      assert c.seen + {key} == c.seen;
    } else {
      AdvanceTask(c.(seen := c.seen + {key}), id, Claimed(input, key, flow), n - 2);
    }
  }

  /** A pod handler scheduled without interruption does what `RecordPods` says. */
  lemma {:induction false} PodTaskAtomic(c: Core, id: nat, messages: seq<PodMessage>, n: nat)
    requires id !in c.tasks && n >= 2 * |messages| + 1
    ensures Finishing(c, id, Applying(messages), n) == RecordPods(c, messages)
    decreases |messages|
  {
    AdvanceTask(c, id, Applying(messages), n);
    if messages != [] {
      var message, rest := messages[0], messages[1..];
      var known := c.(pods := c.pods[message.ip := message.info]);
      if message.info.applicationName == "" {
        PodTaskAtomic(known, id, rest, n - 1);
      } else {
        AdvanceTask(known, id, Resolving(message, rest), n - 1);
        PodTaskAtomic(RecordPod(c, message), id, rest, n - 2);
      }
    }
  }
}
