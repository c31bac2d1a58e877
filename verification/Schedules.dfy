/** Uninterrupted runs are interleavings: every sequence of actions has a
    schedule of atomic steps with the same outcome and the same counted calls. */
module Schedules {
  import opened Graph
  import opened Hosts
  import opened Ingestion
  import opened ArrivalOrder
  import opened Interleaving
  import opened Serial

  lemma CountedSnoc(c: Core, steps: seq<Step>, step: Step)
    ensures CountedFrom(c, steps + [step]) == CountedFrom(c, steps) + CountedBy(Continue(c, steps), step)
  {
    assert (steps + [step])[..|steps|] == steps;
  }

  lemma {:induction false} CountedConcat(c: Core, first: seq<Step>, second: seq<Step>)
    ensures CountedFrom(c, first + second) == CountedFrom(c, first) + CountedFrom(Continue(c, first), second)
    decreases |second|
  {
    if second == [] {
      assert first + second == first;
    } else {
      var before, last := second[..|second| - 1], second[|second| - 1];
      assert second == before + [last] && first + second == (first + before) + [last];
      CountedConcat(c, first, before);
      CountedSnoc(c, first + before, last);
      CountedSnoc(Continue(c, first), before, last);
      ContinueConcat(c, first, before);
    }
  }

  lemma CountedOne(c: Core, step: Step)
    ensures CountedFrom(c, [step]) == CountedBy(c, step)
  {
    assert [step][..0] == [];
  }

  lemma CountedCons(c: Core, step: Step, steps: seq<Step>)
    ensures CountedFrom(c, [step] + steps) == CountedBy(c, step) + CountedFrom(Apply(c, step), steps)
  {
    CountedConcat(c, [step], steps);
    CountedOne(c, step);
    ContinueCons(c, step, []);
    assert [step] + [] == [step];
  }

  lemma {:induction false} CountedFinished(c: Core, id: nat, n: nat)
    requires id !in c.tasks
    ensures CountedFrom(c, Advances(id, n)) == {}
  {
    if n > 0 {
      assert Advances(id, n) == [Advance(id)] + Advances(id, n - 1);
      CountedCons(c, Advance(id), Advances(id, n - 1));
      CountedFinished(c, id, n - 1);
    }
  }

  /** The calls counted while a task at `task` is given `n` steps in a row. */
  function CountedWhile(c: Core, id: nat, task: Task, n: nat): set<Call> {
    CountedFrom(c.(tasks := c.tasks[id := task]), Advances(id, n))
  }

  lemma CountedStep(busy: Core, id: nat, n: nat)
    requires n > 0
    ensures CountedFrom(busy, Advances(id, n))
         == CountedBy(busy, Advance(id)) + CountedFrom(Apply(busy, Advance(id)), Advances(id, n - 1))
  {
    assert Advances(id, n) == [Advance(id)] + Advances(id, n - 1);
    CountedCons(busy, Advance(id), Advances(id, n - 1));
  }

  lemma CountedOnwards(c: Core, id: nat, task: Task, n: nat)
    requires id !in c.tasks
    ensures CountedFrom(Apply(c.(tasks := c.tasks[id := task]), Advance(id)), Advances(id, n))
         == if NextTask(c, task).Some? then CountedWhile(Effect(c, task), id, NextTask(c, task).value, n) else {}
  {
    var next := NextTask(c, task);
    var busy := c.(tasks := c.tasks[id := task]);
    assert NextTask(busy, task) == next;
    if next.Some? {
      assert c.tasks[id := task][id := next.value] == c.tasks[id := next.value];
    } else {
      CountedFinished(Apply(busy, Advance(id)), id, n);
    }
  }

  /** A step that is not a claim counts nothing. */
  lemma CountedLater(c: Core, id: nat, task: Task, n: nat)
    requires id !in c.tasks && n > 0 && !task.Keyed?
    ensures CountedWhile(c, id, task, n)
         == if NextTask(c, task).Some? then CountedWhile(Effect(c, task), id, NextTask(c, task).value, n - 1) else {}
  {
    CountedStep(c.(tasks := c.tasks[id := task]), id, n);
    CountedOnwards(c, id, task, n - 1);
  }

  lemma CountedRecorded(c: Core, id: nat, task: Task, n: nat)
    requires id !in c.tasks && n > 0 && task.Claimed?
    ensures CountedWhile(c, id, task, n) == {}
  {
    CountedLater(c, id, task, n);
  }

  lemma CountedClaim(c: Core, id: nat, task: Task, n: nat)
    requires id !in c.tasks && n > 1 && task.Keyed?
    ensures CountedWhile(c, id, task, n) == {CallOf(task.input)}
  {
    var busy := c.(tasks := c.tasks[id := task]);
    CountedStep(busy, id, n);
    assert CountedBy(busy, Advance(id)) == {CallOf(task.input)};
    CountedOnwards(c, id, task, n - 1);
    if task.key !in c.seen {
      CountedRecorded(Effect(c, task), id, Claimed(task.input, task.key, task.flow), n - 1);
    }
  }

  /** From the lookup of its destination, a task counts its call. */
  lemma KeyedCounted(c: Core, id: nat, input: Input, pod: PodInfo, destination: NodeId, n: nat)
    requires id !in c.tasks && n >= 3
    ensures CountedWhile(c, id, DestinationKnown(input, pod, destination), n) == {CallOf(input)}
  {
    CountedLater(c, id, DestinationKnown(input, pod, destination), n);
    CountedClaim(c, id, Keyed(input, KeyOf(c.pods, input, pod, destination), FlowOf(input, pod, destination)), n - 1);
  }

  lemma UnroutedCounted(c: Core, id: nat, input: Input, pod: PodInfo)
    requires id !in c.tasks
    ensures CountedWhile(c, id, RouteMissed(input, pod), 4) == {CallOf(input)}
  {
    CountedLater(c, id, RouteMissed(input, pod), 4);
    KeyedCounted(c, id, input, pod, UnroutedDestination(c.pods, input), 3);
  }

  lemma SourceCounted(c: Core, id: nat, input: Input, pod: PodInfo)
    requires id !in c.tasks
    ensures CountedWhile(c, id, SourceKnown(input, pod), 5) == {CallOf(input)}
  {
    CountedLater(c, id, SourceKnown(input, pod), 5);
    if StripPort(input.host) in c.routes {
      KeyedCounted(c, id, input, pod, c.routes[StripPort(input.host)], 4);
    } else {
      UnroutedCounted(c, id, input, pod);
    }
  }

  lemma EventCounted(c: Core, id: nat, input: Input)
    requires id !in c.tasks
    ensures CountedFrom(c, [Spawn(id, Received(input))] + Advances(id, 6)) == AcceptedBy(c, Traffic(input))
  {
    CountedCons(c, Spawn(id, Received(input)), Advances(id, 6));
    CountedLater(c, id, Received(input), 6);
    if SourcePod(c.pods, input).Some? {
      SourceCounted(c, id, input, SourcePod(c.pods, input).value);
    }
  }

  lemma {:induction false} MessagesCounted(c: Core, id: nat, messages: seq<PodMessage>, n: nat)
    requires id !in c.tasks && n >= 2 * |messages| + 1
    ensures CountedWhile(c, id, Applying(messages), n) == {}
    decreases |messages|, 1
  {
    CountedLater(c, id, Applying(messages), n);
    if messages != [] {
      assert NextTask(c, Applying(messages)) == Some(AfterInsert(messages[0], messages[1..]));
      InsertedCounted(Effect(c, Applying(messages)), id, messages[0], messages[1..], n - 1);
    }
  }

  /** Where a handler goes from inserting `message`. */
  function AfterInsert(message: PodMessage, rest: seq<PodMessage>): Task {
    if message.info.applicationName == "" then Applying(rest) else Resolving(message, rest)
  }

  lemma {:induction false} InsertedCounted(c: Core, id: nat, message: PodMessage, rest: seq<PodMessage>, n: nat)
    requires id !in c.tasks && n >= 2 * |rest| + 2
    ensures CountedWhile(c, id, AfterInsert(message, rest), n) == {}
    decreases |rest|, 3
  {
    if message.info.applicationName == "" {
      MessagesCounted(c, id, rest, n);
    } else {
      ResolvingCounted(c, id, message, rest, n);
    }
  }

  lemma {:induction false} ResolvingCounted(c: Core, id: nat, message: PodMessage, rest: seq<PodMessage>, n: nat)
    requires id !in c.tasks && n >= 2 * |rest| + 2
    ensures CountedWhile(c, id, Resolving(message, rest), n) == {}
    decreases |rest|, 2
  {
    CountedLater(c, id, Resolving(message, rest), n);
    MessagesCounted(Effect(c, Resolving(message, rest)), id, rest, n - 1);
  }

  lemma PodsCounted(c: Core, id: nat, messages: seq<PodMessage>, n: nat)
    requires id !in c.tasks && n >= 2 * |messages| + 1
    ensures CountedFrom(c, [Spawn(id, Applying(messages))] + Advances(id, n)) == {}
    ensures Continue(c, [Spawn(id, Applying(messages))] + Advances(id, n)) == RecordPods(c, messages)
  {
    CountedCons(c, Spawn(id, Applying(messages)), Advances(id, n));
    MessagesCounted(c, id, messages, n);
    ContinueCons(c, Spawn(id, Applying(messages)), Advances(id, n));
    PodTaskAtomic(c, id, messages, n);
  }

  /** The atomic steps of an action, one after the other. */
  function ScheduleOf(action: Action): seq<Step> {
    match action
    case Traffic(input) => [Spawn(0, Received(input))] + Advances(0, 6)
    case Identify(messages) => [Spawn(0, Applying(messages))] + Advances(0, 2 * |messages| + 1)
    case Route(domain, to) => [PushRoute(domain, to)]
    case Annotate(node, event) => [AttachEvent(node, event)]
  }

  function Schedule(actions: seq<Action>): seq<Step> {
    if actions == [] then [] else Schedule(actions[..|actions| - 1]) + ScheduleOf(actions[|actions| - 1])
  }

  lemma ActionScheduled(c: Core, action: Action)
    requires c.tasks == map[]
    ensures Continue(c, ScheduleOf(action)) == Perform(c, action) && Perform(c, action).tasks == map[]
    ensures CountedFrom(c, ScheduleOf(action)) == AcceptedBy(c, action)
  {
    match action
    case Traffic(input) =>
      EventTaskAtomic(c, 0, input);
      EventCounted(c, 0, input);
    case Identify(messages) =>
      PodsCounted(c, 0, messages, 2 * |messages| + 1);
      RecordPodsKeeps(c, messages);
    case Route(domain, to) =>
      ContinueCons(c, PushRoute(domain, to), []);
      CountedOne(c, PushRoute(domain, to));
      assert [PushRoute(domain, to)] + [] == [PushRoute(domain, to)];
    case Annotate(node, event) =>
      ContinueCons(c, AttachEvent(node, event), []);
      CountedOne(c, AttachEvent(node, event));
      assert [AttachEvent(node, event)] + [] == [AttachEvent(node, event)];
  }

  /** The schedule of an uninterrupted run has its outcome, ends idle and counts
      exactly the accepted calls. */
  lemma {:induction false} SerialScheduled(actions: seq<Action>)
    ensures Run(Schedule(actions)) == Outcome(actions) && Outcome(actions).tasks == map[]
    ensures Counted(Schedule(actions)) == Accepted(actions)
  {
    if actions != [] {
      var before, last := actions[..|actions| - 1], actions[|actions| - 1];
      SerialScheduled(before);
      ActionScheduled(Outcome(before), last);
      ContinueConcat(INITIAL, Schedule(before), ScheduleOf(last));
      CountedConcat(INITIAL, Schedule(before), ScheduleOf(last));
    }
  }

  lemma {:induction false} OrderlyDisciplined(directory: Directory, actions: seq<Action>)
    requires Orderly(directory, actions)
    ensures Disciplined(directory, Schedule(actions))
  {
    if actions != [] {
      var before, last := actions[..|actions| - 1], actions[|actions| - 1];
      OrderlyDisciplined(directory, before);
      ActionDisciplined(directory, last);
    }
  }

  lemma ActionDisciplined(directory: Directory, action: Action)
    requires Permitted(directory, action)
    ensures Disciplined(directory, ScheduleOf(action))
  {
  }
}
