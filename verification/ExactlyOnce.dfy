/** Edge deduplication is exactly-once under every interleaving. */
module ExactlyOnce {
  import opened Bags
  import opened Graph
  import opened Ingestion
  import Healing
  import opened Hosts

  /** What became of a claimed edge key: held by the task that won it, or
      recorded as a flow that later heals keep renaming. */
  datatype Claim = Held(id: nat) | Recorded(flow: Flow)

  type Ledger = map<string, Claim>

  function RenameClaim(claim: Claim, stale: NodeId, resolved: NodeId): Claim {
    if claim.Recorded? then Recorded(RenameFlow(claim.flow, stale, resolved)) else claim
  }

  function RenameClaims(ledger: Ledger, stale: NodeId, resolved: NodeId): Ledger {
    map key | key in ledger :: RenameClaim(ledger[key], stale, resolved)
  }

  function Logged(ledger: Ledger, c: Core, step: Step): Ledger {
    if step.Advance? && step.id in c.tasks then
      match c.tasks[step.id]
      case Keyed(input, key, flow) => if key in c.seen then ledger else ledger[key := Held(step.id)]
      case Claimed(input, key, flow) => ledger[key := Recorded(flow)]
      case Resolving(message, todo) =>
        RenameClaims(ledger, Stale(message.ip), NodeId(message.info.applicationName, message.info.namespace))
      case _ => ledger
    else ledger
  }

  /** The history of the claims made during a run. */
  function History(steps: seq<Step>): Ledger {
    if steps == [] then map[]
    else
      var before := steps[..|steps| - 1];
      Logged(History(before), Run(before), steps[|steps| - 1])
  }

  type Tasks = map<nat, Task>

  /** The tasks that won their key and have not yet updated the graph. */
  ghost function Pending(tasks: Tasks): set<nat> {
    set id | id in tasks && tasks[id].Claimed?
  }

  ghost predicate HeldByTasks(tasks: Tasks, ledger: Ledger) {
    && (forall key :: key in ledger && ledger[key].Held? ==>
          ledger[key].id in tasks && tasks[ledger[key].id].Claimed? && tasks[ledger[key].id].key == key)
    && (forall id :: id in tasks && tasks[id].Claimed? ==>
          tasks[id].key in ledger && ledger[tasks[id].key] == Held(id))
  }

  ghost predicate IsRecorded(ledger: Ledger, flow: Flow) {
    exists key :: key in ledger && ledger[key] == Recorded(flow)
  }

  /** The flows of the graph are exactly those the ledger records. */
  ghost predicate RecordsFlows(g: Graph, ledger: Ledger) {
    forall flow :: flow in Flows(g) <==> IsRecorded(ledger, flow)
  }

  ghost predicate Consistent(g: Graph, seen: set<string>, tasks: Tasks, ledger: Ledger) {
    && ledger.Keys == seen
    && HeldByTasks(tasks, ledger)
    && RecordsFlows(g, ledger)
    && |Flows(g)| + |Pending(tasks)| <= |seen|
  }

  lemma ClaimKeepsRecords(g: Graph, ledger: Ledger, key: string, id: nat)
    requires RecordsFlows(g, ledger) && key !in ledger
    ensures RecordsFlows(g, ledger[key := Held(id)])
  {
    var next := ledger[key := Held(id)];
    forall flow ensures IsRecorded(next, flow) <==> IsRecorded(ledger, flow) {
      if IsRecorded(ledger, flow) {
        var k :| k in ledger && ledger[k] == Recorded(flow);
        assert next[k] == Recorded(flow);
      }
    }
  }

  lemma RecordKeepsRecords(g: Graph, h: Graph, ledger: Ledger, key: string, flow: Flow)
    requires RecordsFlows(g, ledger) && key in ledger && ledger[key].Held?
    requires forall f :: f in Flows(h) <==> f in Flows(g) || f == flow
    ensures RecordsFlows(h, ledger[key := Recorded(flow)])
  {
    var next := ledger[key := Recorded(flow)];
    forall f ensures IsRecorded(next, f) <==> IsRecorded(ledger, f) || f == flow {
      if IsRecorded(ledger, f) {
        var k :| k in ledger && ledger[k] == Recorded(f);
        assert next[k] == Recorded(f);
      }
      if f == flow {
        assert next[key] == Recorded(f);
      }
    }
  }

  lemma RenameKeepsRecords(g: Graph, h: Graph, ledger: Ledger, stale: NodeId, resolved: NodeId)
    requires RecordsFlows(g, ledger)
    requires Flows(h) == Image(Flows(g), Renamer(stale, resolved))
    ensures RecordsFlows(h, RenameClaims(ledger, stale, resolved))
  {
    var rename, next := Renamer(stale, resolved), RenameClaims(ledger, stale, resolved);
    forall flow ensures flow in Flows(h) <==> IsRecorded(next, flow) {
      if flow in Flows(h) {
        var before := ImageMember(Flows(g), rename, flow);
        assert IsRecorded(ledger, before);
        var key :| key in ledger && ledger[key] == Recorded(before);
        assert next[key] == Recorded(flow);
      }
      if IsRecorded(next, flow) {
        var key :| key in next && next[key] == Recorded(flow);
        assert IsRecorded(ledger, ledger[key].flow);
        ImageContains(Flows(g), rename, ledger[key].flow);
      }
    }
  }

  lemma ClaimHeld(tasks: Tasks, ledger: Ledger, id: nat, task: Task)
    requires HeldByTasks(tasks, ledger) && id in tasks && tasks[id].Keyed?
    requires task.Claimed? && task.key !in ledger
    ensures HeldByTasks(tasks[id := task], ledger[task.key := Held(id)])
    ensures |Pending(tasks[id := task])| == |Pending(tasks)| + 1
  {
    assert id !in Pending(tasks);
    assert Pending(tasks[id := task]) == Pending(tasks) + {id};
  }

  lemma ClaimConsistent(g: Graph, seen: set<string>, tasks: Tasks, ledger: Ledger, id: nat, task: Task)
    requires Consistent(g, seen, tasks, ledger) && id in tasks && tasks[id].Keyed?
    requires task.Claimed? && task.key !in seen
    ensures Consistent(g, seen + {task.key}, tasks[id := task], ledger[task.key := Held(id)])
  {
    ClaimHeld(tasks, ledger, id, task);
    ClaimKeepsRecords(g, ledger, task.key, id);
  }

  lemma RecordHeld(tasks: Tasks, ledger: Ledger, id: nat)
    requires HeldByTasks(tasks, ledger) && id in tasks && tasks[id].Claimed?
    ensures HeldByTasks(tasks - {id}, ledger[tasks[id].key := Recorded(tasks[id].flow)])
    ensures |Pending(tasks)| == |Pending(tasks - {id})| + 1
  {
    assert id in Pending(tasks);
    assert Pending(tasks - {id}) == Pending(tasks) - {id};
  }

  lemma RecordConsistent(g: Graph, h: Graph, seen: set<string>, tasks: Tasks, ledger: Ledger, id: nat)
    requires Consistent(g, seen, tasks, ledger) && id in tasks && tasks[id].Claimed?
    requires Flows(h) == Flows(g) + if tasks[id].flow in Flows(g) then multiset{} else multiset{tasks[id].flow}
    ensures Consistent(h, seen, tasks - {id}, ledger[tasks[id].key := Recorded(tasks[id].flow)])
  {
    RecordHeld(tasks, ledger, id);
    RecordKeepsRecords(g, h, ledger, tasks[id].key, tasks[id].flow);
  }

  lemma RenameHeld(tasks: Tasks, ledger: Ledger, stale: NodeId, resolved: NodeId)
    requires HeldByTasks(tasks, ledger)
    ensures HeldByTasks(tasks, RenameClaims(ledger, stale, resolved))
  {
  }

  lemma ResolveConsistent(g: Graph, h: Graph, seen: set<string>, tasks: Tasks, ledger: Ledger, stale: NodeId,
                          resolved: NodeId)
    requires Consistent(g, seen, tasks, ledger)
    requires Flows(h) == Image(Flows(g), Renamer(stale, resolved))
    ensures Consistent(h, seen, tasks, RenameClaims(ledger, stale, resolved))
  {
    RenameHeld(tasks, ledger, stale, resolved);
    RenameKeepsRecords(g, h, ledger, stale, resolved);
  }

  /** Tasks that are not at the graph step may come, go and move on freely. */
  lemma QuietConsistent(g: Graph, seen: set<string>, tasks: Tasks, ledger: Ledger, id: nat, next: Option<Task>)
    requires Consistent(g, seen, tasks, ledger)
    requires id in tasks ==> !tasks[id].Claimed?
    requires next.Some? ==> !next.value.Claimed?
    ensures Consistent(g, seen, Reschedule(tasks, id, next), ledger)
  {
    QuietPending(tasks, id, next);
    QuietHeld(tasks, ledger, id, next);
  }

  lemma QuietPending(tasks: Tasks, id: nat, next: Option<Task>)
    requires id in tasks ==> !tasks[id].Claimed?
    requires next.Some? ==> !next.value.Claimed?
    ensures Pending(Reschedule(tasks, id, next)) == Pending(tasks)
  {
  }

  lemma QuietHeld(tasks: Tasks, ledger: Ledger, id: nat, next: Option<Task>)
    requires HeldByTasks(tasks, ledger)
    requires id in tasks ==> !tasks[id].Claimed?
    requires next.Some? ==> !next.value.Claimed?
    ensures HeldByTasks(Reschedule(tasks, id, next), ledger)
  {
  }

  ghost predicate ConsistentCore(c: Core, ledger: Ledger) {
    Consistent(c.graph, c.seen, c.tasks, ledger)
  }

  lemma NextTaskKind(c: Core, task: Task)
    ensures var next := NextTask(c, task);
            next.Some? && next.value.Claimed? <==> task.Keyed? && task.key !in c.seen
    ensures task.Keyed? && task.key !in c.seen ==> NextTask(c, task) == Some(Claimed(task.input, task.key, task.flow))
    ensures task.Claimed? ==> NextTask(c, task) == None
  {
  }

  lemma ProgressClaimed(c: Core, ledger: Ledger, id: nat, task: Task)
    requires ConsistentCore(c, ledger) && Sound(c.graph) && id in c.tasks && c.tasks[id] == task && task.Claimed?
    ensures ConsistentCore(Progress(c, id, task), ledger[task.key := Recorded(task.flow)])
  {
    CallFlows(c.graph, task.flow, SourceIp(task.input), DestinationIp(task.input));
    RecordConsistent(c.graph, GraphAfter(c.graph, task), c.seen, c.tasks, ledger, id);
  }

  lemma HealConsistent(g: Graph, seen: set<string>, tasks: Tasks, ledger: Ledger, message: PodMessage)
    requires Consistent(g, seen, tasks, ledger) && Sound(g)
    ensures var info := message.info;
            Consistent(Healed(g, message.ip, info.applicationName, info.namespace), seen, tasks,
                       RenameClaims(ledger, Stale(message.ip), NodeId(info.applicationName, info.namespace)))
  {
    var info := message.info;
    Healing.HealedFlowsSound(g, message.ip, info.applicationName, info.namespace);
    ResolveConsistent(g, Healed(g, message.ip, info.applicationName, info.namespace), seen, tasks, ledger,
                      Stale(message.ip), NodeId(info.applicationName, info.namespace));
  }

  lemma ProgressResolving(c: Core, ledger: Ledger, id: nat, task: Task)
    requires ConsistentCore(c, ledger) && Sound(c.graph) && id in c.tasks && c.tasks[id] == task && task.Resolving?
    ensures var info := task.message.info;
            ConsistentCore(Progress(c, id, task),
                           RenameClaims(ledger, Stale(task.message.ip), NodeId(info.applicationName, info.namespace)))
  {
    QuietConsistent(c.graph, c.seen, c.tasks, ledger, id, Some(Applying(task.todo)));
    HealConsistent(c.graph, c.seen, c.tasks[id := Applying(task.todo)], ledger, task.message);
  }

  lemma ProgressConsistent(c: Core, ledger: Ledger, id: nat, task: Task)
    requires ConsistentCore(c, ledger) && Sound(c.graph) && id in c.tasks && c.tasks[id] == task
    ensures ConsistentCore(Progress(c, id, task), Logged(ledger, c, Advance(id)))
  {
    if task.Claimed? {
      ProgressClaimed(c, ledger, id, task);
    } else if task.Resolving? {
      ProgressResolving(c, ledger, id, task);
    } else {
      NextTaskKind(c, task);
      if task.Keyed? && task.key !in c.seen {
        ClaimConsistent(c.graph, c.seen, c.tasks, ledger, id, Claimed(task.input, task.key, task.flow));
      } else {
        QuietConsistent(c.graph, c.seen, c.tasks, ledger, id, NextTask(c, task));
        assert SeenAfter(c.seen, task) == c.seen;
      }
    }
  }

  lemma StepConsistent(c: Core, ledger: Ledger, step: Step)
    requires ConsistentCore(c, ledger) && Sound(c.graph)
    ensures ConsistentCore(Apply(c, step), Logged(ledger, c, step))
  {
    match step
    case Spawn(id, task) =>
      if id !in c.tasks && (task.Received? || task.Applying?) {
        QuietConsistent(c.graph, c.seen, c.tasks, ledger, id, Some(task));
      }
    case Advance(id) =>
      if id in c.tasks {
        ProgressConsistent(c, ledger, id, c.tasks[id]);
      }
    case _ =>
  }

  /** Exactly-once, after every run: a claimed key is either held by the one
      task that won it, still pending at the graph step, or its flow, renamed
      by every heal since, is in the graph; nothing else is; and flows counted
      with multiplicity plus pending tasks never exceed the claimed keys. */
  lemma {:induction false} RunConsistent(steps: seq<Step>)
    ensures ConsistentCore(Run(steps), History(steps))
  {
    if steps != [] {
      var before := steps[..|steps| - 1];
      RunConsistent(before);
      RunSound(before);
      StepConsistent(Run(before), History(before), steps[|steps| - 1]);
    }
  }

  /** The `i`-th step of the run wins the claim of `key`. */
  ghost predicate WinsAt(steps: seq<Step>, i: nat, key: string)
    requires i < |steps|
  {
    var c := Run(steps[..i]);
    && steps[i].Advance? && steps[i].id in c.tasks
    && c.tasks[steps[i].id].Keyed? && c.tasks[steps[i].id].key == key && key !in c.seen
  }

  lemma {:induction false} SeenGrows(steps: seq<Step>, i: nat, j: nat)
    requires i <= j <= |steps|
    ensures Run(steps[..i]).seen <= Run(steps[..j]).seen
    decreases j
  {
    if i < j {
      SeenGrows(steps, i, j - 1);
      assert steps[..j][..j - 1] == steps[..j - 1];
    }
  }

  /** No key is ever won twice. */
  lemma WonOnce(steps: seq<Step>, i: nat, j: nat, key: string)
    requires i < |steps| && j < |steps| && WinsAt(steps, i, key) && WinsAt(steps, j, key)
    ensures i == j
  {
    if i < j {
      assert steps[..i + 1][..i] == steps[..i];
      SeenGrows(steps, i + 1, j);
    } else if j < i {
      assert steps[..j + 1][..j] == steps[..j];
      SeenGrows(steps, j + 1, i);
    }
  }
}
