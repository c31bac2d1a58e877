/** When replaying a service-pod map changes the graph: a pass renames every
    node along a chain, and a replay is without effect exactly when the ends of
    those chains stay where they are. */
module Replay {
  import opened Bags
  import opened Graph
  import opened Ingestion
  import opened Resync
  import Healing

  /** Where one message moves a node. */
  function Moved(message: PodMessage, id: NodeId): NodeId {
    if message.info.applicationName == "" then id
    else Rename(id, Stale(message.ip), NodeId(message.info.applicationName, message.info.namespace))
  }

  /** Where a whole pass moves it. */
  function Final(messages: seq<PodMessage>, id: NodeId): NodeId
    decreases |messages|
  {
    if messages == [] then id else Final(messages[1..], Moved(messages[0], id))
  }

  ghost function MovedAll(message: PodMessage, ids: set<NodeId>): set<NodeId> {
    set id | id in ids :: Moved(message, id)
  }

  ghost function FinalAll(messages: seq<PodMessage>, ids: set<NodeId>): set<NodeId> {
    set id | id in ids :: Final(messages, id)
  }

  function FinalFlow(messages: seq<PodMessage>): Flow -> Flow {
    (flow: Flow) => flow.(source := Final(messages, flow.source), destination := Final(messages, flow.destination))
  }

  function HealedBy(g: Graph, message: PodMessage): Graph {
    if message.info.applicationName == "" then g
    else Healed(g, message.ip, message.info.applicationName, message.info.namespace)
  }

  function MovedFlow(message: PodMessage): Flow -> Flow {
    (flow: Flow) => flow.(source := Moved(message, flow.source), destination := Moved(message, flow.destination))
  }

  /** One message maps nodes and flows alike. */
  lemma MessageMaps(g: Graph, message: PodMessage)
    requires Sound(g)
    ensures var h := HealedBy(g, message);
            && Sound(h) && h.nodes.Keys == MovedAll(message, g.nodes.Keys)
            && Flows(h) == Image(Flows(g), MovedFlow(message))
  {
    var info := message.info;
    if info.applicationName == "" {
      ImageFixed(Flows(g), MovedFlow(message));
      MovedKeeps(message, g.nodes.Keys);
    } else {
      var rename := Renamer(Stale(message.ip), NodeId(info.applicationName, info.namespace));
      Healing.HealedSound(g, message.ip, info.applicationName, info.namespace);
      Healing.HealedFlowsSound(g, message.ip, info.applicationName, info.namespace);
      ImageAgree(Flows(g), rename, MovedFlow(message));
      NodesMove(g, message);
    }
  }

  lemma NodesMove(g: Graph, message: PodMessage)
    requires message.info.applicationName != ""
    ensures HealedBy(g, message).nodes.Keys == MovedAll(message, g.nodes.Keys)
  {
    var stale := Stale(message.ip);
    if stale in g.nodes {
      Healing.HealedFlows(g, message.ip, message.info.applicationName, message.info.namespace);
      MovedReplaces(message, g.nodes.Keys);
    } else {
      MovedKeeps(message, g.nodes.Keys);
    }
  }

  lemma MovedReplaces(message: PodMessage, ids: set<NodeId>)
    requires message.info.applicationName != "" && Stale(message.ip) in ids
    ensures MovedAll(message, ids)
         == ids - {Stale(message.ip)} + {NodeId(message.info.applicationName, message.info.namespace)}
  {
    var stale := Stale(message.ip);
    assert Moved(message, stale) in MovedAll(message, ids);
    forall id | id in ids - {stale} ensures id in MovedAll(message, ids) {
      assert Moved(message, id) == id;
    }
  }

  lemma MovedKeeps(message: PodMessage, ids: set<NodeId>)
    requires message.info.applicationName == "" || Stale(message.ip) !in ids
    ensures MovedAll(message, ids) == ids
  {
    forall id | id in ids ensures id in MovedAll(message, ids) {
      assert Moved(message, id) == id;
    }
  }

  /** A pass maps every node to the end of its chain, and the flows likewise. */
  lemma {:induction false} PassMaps(g: Graph, messages: seq<PodMessage>)
    requires Sound(g)
    ensures var h := HealedAll(g, messages);
            && Sound(h) && h.nodes.Keys == FinalAll(messages, g.nodes.Keys)
            && Flows(h) == Image(Flows(g), FinalFlow(messages))
    decreases |messages|
  {
    if messages == [] {
      ImageFixed(Flows(g), FinalFlow(messages));
    } else {
      var h, rest := HealedBy(g, messages[0]), messages[1..];
      assert HealedAll(g, messages) == HealedAll(h, rest);
      MessageMaps(g, messages[0]);
      PassMaps(h, rest);
      NodesCompose(messages, g.nodes.Keys);
      ImageCompose(Flows(g), MovedFlow(messages[0]), FinalFlow(rest));
      ImageAgree(Flows(g), Then(MovedFlow(messages[0]), FinalFlow(rest)), FinalFlow(messages));
    }
  }

  lemma NodesCompose(messages: seq<PodMessage>, ids: set<NodeId>)
    requires messages != []
    ensures FinalAll(messages[1..], MovedAll(messages[0], ids)) == FinalAll(messages, ids)
  {
    var moved := MovedAll(messages[0], ids);
    forall id | id in ids ensures Final(messages, id) in FinalAll(messages[1..], moved) {
      assert Moved(messages[0], id) in moved;
    }
    forall j | j in moved ensures Final(messages[1..], j) in FinalAll(messages, ids) {
      var id :| id in ids && j == Moved(messages[0], id);
      assert Final(messages, id) == Final(messages[1..], j);
    }
  }

  /** A pass over the ends of the chains of its own raw ids leaves them. */
  ghost predicate Stable(messages: seq<PodMessage>) {
    forall i :: 0 <= i < |messages| ==>
      var end := Final(messages, Stale(messages[i].ip));
      Final(messages, end) == end
  }

  lemma {:induction false} UnlistedStays(messages: seq<PodMessage>, id: NodeId)
    requires forall i :: 0 <= i < |messages| ==> id != Stale(messages[i].ip)
    ensures Final(messages, id) == id
    decreases |messages|
  {
    if messages != [] {
      assert id != Stale(messages[0].ip);
      UnlistedStays(messages[1..], id);
    }
  }

  lemma StableEverywhere(messages: seq<PodMessage>, id: NodeId)
    requires Stable(messages)
    ensures Final(messages, Final(messages, id)) == Final(messages, id)
  {
    if i :| 0 <= i < |messages| && id == Stale(messages[i].ip) {
    } else {
      UnlistedStays(messages, id);
    }
  }

  ghost predicate SameGraph(g: Graph, h: Graph) {
    g.nodes.Keys == h.nodes.Keys && Flows(g) == Flows(h)
  }

  lemma FinalAllTwice(messages: seq<PodMessage>, ids: set<NodeId>)
    requires Stable(messages)
    ensures FinalAll(messages, FinalAll(messages, ids)) == FinalAll(messages, ids)
  {
    var once := FinalAll(messages, ids);
    forall id | id in once ensures Final(messages, id) == id {
      var was :| was in ids && id == Final(messages, was);
      StableEverywhere(messages, was);
    }
    forall id | id in once ensures id in FinalAll(messages, once) {
      assert Final(messages, id) in FinalAll(messages, once);
    }
  }

  lemma FinalFlowTwice(messages: seq<PodMessage>, bag: multiset<Flow>)
    requires Stable(messages)
    ensures Image(Image(bag, FinalFlow(messages)), FinalFlow(messages)) == Image(bag, FinalFlow(messages))
  {
    var final := FinalFlow(messages);
    ImageCompose(bag, final, final);
    forall flow | flow in bag ensures Then(final, final)(flow) == final(flow) {
      StableEverywhere(messages, flow.source);
      StableEverywhere(messages, flow.destination);
    }
    ImageAgree(bag, Then(final, final), final);
  }

  lemma StableReplays(g: Graph, messages: seq<PodMessage>)
    requires Sound(g) && Stable(messages)
    ensures SameGraph(HealedAll(HealedAll(g, messages), messages), HealedAll(g, messages))
  {
    PassMaps(g, messages);
    PassMaps(HealedAll(g, messages), messages);
    FinalAllTwice(messages, g.nodes.Keys);
    FinalFlowTwice(messages, Flows(g));
  }

  function Single(id: NodeId): Graph { Graph(map[id := NodeData("", [])], map[], map[]) }

  lemma UnstableReplays(messages: seq<PodMessage>, id: NodeId)
    requires Final(messages, Final(messages, id)) != Final(messages, id)
    ensures Sound(Single(id))
    ensures var h := HealedAll(Single(id), messages); !SameGraph(HealedAll(h, messages), h)
  {
    var g, end := Single(id), Final(messages, id);
    assert Flat(g.upstream) == multiset{};
    assert g.nodes.Keys == {id};
    PassMaps(g, messages);
    PassMaps(HealedAll(g, messages), messages);
    assert FinalAll(messages, {id}) == {end};
    assert FinalAll(messages, {end}) == {Final(messages, end)};
  }

  /** Replaying a list leaves the nodes and flows of every sound graph as they
      are if and only if the list moves no end of its own chains. */
  lemma ReplayIffStable(messages: seq<PodMessage>)
    ensures Stable(messages) <==>
              forall g :: Sound(g) ==> SameGraph(HealedAll(HealedAll(g, messages), messages), HealedAll(g, messages))
  {
    if Stable(messages) {
      forall g | Sound(g) ensures SameGraph(HealedAll(HealedAll(g, messages), messages), HealedAll(g, messages)) {
        StableReplays(g, messages);
      }
    } else {
      var i :| 0 <= i < |messages|
            && Final(messages, Final(messages, Stale(messages[i].ip))) != Final(messages, Stale(messages[i].ip));
      UnstableReplays(messages, Stale(messages[i].ip));
      assert Sound(Single(Stale(messages[i].ip)));
    }
  }
}
