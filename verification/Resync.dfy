/** The periodic resync of the whole service-pod map. */
module Resync {
  import opened Graph
  import opened Ingestion

  function Inserted(pods: map<string, PodInfo>, messages: seq<PodMessage>): map<string, PodInfo>
    decreases |messages|
  {
    if messages == [] then pods else Inserted(pods[messages[0].ip := messages[0].info], messages[1..])
  }

  function HealedAll(g: Graph, messages: seq<PodMessage>): Graph
    decreases |messages|
  {
    if messages == [] then g
    else
      var info := messages[0].info;
      HealedAll(if info.applicationName == "" then g
                else Healed(g, messages[0].ip, info.applicationName, info.namespace),
                messages[1..])
  }

  lemma {:induction false} RecordPodsParts(c: Core, messages: seq<PodMessage>)
    ensures RecordPods(c, messages) == c.(pods := Inserted(c.pods, messages), graph := HealedAll(c.graph, messages))
    decreases |messages|
  {
    if messages != [] {
      RecordPodsParts(RecordPod(c, messages[0]), messages[1..]);
    }
  }

  ghost predicate Lists(messages: seq<PodMessage>, ip: string) {
    exists i :: 0 <= i < |messages| && messages[i].ip == ip
  }

  ghost predicate ListsNamed(messages: seq<PodMessage>, ip: string) {
    exists i :: 0 <= i < |messages| && messages[i].ip == ip && messages[i].info.applicationName != ""
  }

  ghost predicate Known(messages: seq<PodMessage>) {
    forall i :: 0 <= i < |messages| ==> messages[i].info.namespace != UNKNOWN
  }

  lemma ListsTail(messages: seq<PodMessage>, ip: string)
    requires messages != []
    ensures Lists(messages, ip) <==> messages[0].ip == ip || Lists(messages[1..], ip)
    ensures ListsNamed(messages, ip)
       <==> (messages[0].ip == ip && messages[0].info.applicationName != "") || ListsNamed(messages[1..], ip)
  {
    var rest := messages[1..];
    if Lists(messages, ip) && messages[0].ip != ip {
      var i :| 0 <= i < |messages| && messages[i].ip == ip;
      assert rest[i - 1].ip == ip;
    }
    if ListsNamed(messages, ip) && !(messages[0].ip == ip && messages[0].info.applicationName != "") {
      var i :| 0 <= i < |messages| && messages[i].ip == ip && messages[i].info.applicationName != "";
      assert rest[i - 1].ip == ip;
    }
    if Lists(rest, ip) {
      var i :| 0 <= i < |rest| && rest[i].ip == ip;
      assert messages[i + 1].ip == ip;
    }
    if ListsNamed(rest, ip) {
      var i :| 0 <= i < |rest| && rest[i].ip == ip && rest[i].info.applicationName != "";
      assert messages[i + 1].ip == ip;
    }
  }

  /** What a pass leaves in the cache for a listed IP does not depend on what
      was there; other IPs are untouched. */
  lemma {:induction false} InsertedAt(p: map<string, PodInfo>, q: map<string, PodInfo>, messages: seq<PodMessage>,
                                      ip: string)
    ensures Lists(messages, ip) ==>
              && ip in Inserted(p, messages) && ip in Inserted(q, messages)
              && Inserted(p, messages)[ip] == Inserted(q, messages)[ip]
    ensures !Lists(messages, ip) ==>
              (ip in Inserted(p, messages) <==> ip in p) && (ip in p ==> Inserted(p, messages)[ip] == p[ip])
    decreases |messages|
  {
    if messages != [] {
      ListsTail(messages, ip);
      var p', q' := p[messages[0].ip := messages[0].info], q[messages[0].ip := messages[0].info];
      InsertedAt(p', q', messages[1..], ip);
      if !Lists(messages[1..], ip) {
        InsertedAt(q', p', messages[1..], ip);
      }
    }
  }

  lemma InsertedTwice(pods: map<string, PodInfo>, messages: seq<PodMessage>)
    ensures Inserted(Inserted(pods, messages), messages) == Inserted(pods, messages)
  {
    var once := Inserted(pods, messages);
    var twice := Inserted(once, messages);
    forall ip ensures (ip in once <==> ip in twice) && (ip in once ==> once[ip] == twice[ip]) {
      InsertedAt(pods, once, messages, ip);
      InsertedAt(once, pods, messages, ip);
    }
  }

  lemma HealedNodes(g: Graph, ip: string, applicationName: string, namespace: string, stale: NodeId)
    requires stale.namespace == UNKNOWN && namespace != UNKNOWN
    ensures stale in Healed(g, ip, applicationName, namespace).nodes <==> stale in g.nodes && stale != Stale(ip)
  {
  }

  /** After a pass, an IP listed with an application name has no raw node, and
      no other raw node appears or disappears. */
  lemma {:induction false} PassClears(g: Graph, messages: seq<PodMessage>, ip: string)
    requires Known(messages)
    ensures Stale(ip) in HealedAll(g, messages).nodes <==> Stale(ip) in g.nodes && !ListsNamed(messages, ip)
    decreases |messages|
  {
    if messages != [] {
      ListsTail(messages, ip);
      var info := messages[0].info;
      var h := if info.applicationName == "" then g
               else Healed(g, messages[0].ip, info.applicationName, info.namespace);
      if info.applicationName != "" {
        HealedNodes(g, messages[0].ip, info.applicationName, info.namespace, Stale(ip));
        assert Stale(ip) == Stale(messages[0].ip) <==> ip == messages[0].ip;
      }
      assert Known(messages[1..]);
      PassClears(h, messages[1..], ip);
    }
  }

  lemma {:induction false} NothingToHeal(g: Graph, messages: seq<PodMessage>)
    requires forall ip :: ListsNamed(messages, ip) ==> Stale(ip) !in g.nodes
    ensures HealedAll(g, messages) == g
    decreases |messages|
  {
    if messages != [] {
      forall ip | ListsNamed(messages[1..], ip) ensures Stale(ip) !in g.nodes {
        ListsTail(messages, ip);
      }
      ListsTail(messages, messages[0].ip);
      NothingToHeal(g, messages[1..]);
    }
  }

  ghost predicate Named(message: PodMessage) { message.info.applicationName != "" }

  /** The message names the raw id of `ip` as the resolved one. */
  ghost predicate ResolvesInto(message: PodMessage, ip: string) {
    Named(message) && message.info.namespace == UNKNOWN && message.info.applicationName == ip
  }

  /** No message resolves into a raw id that is itself listed, with a name, at
      that place or before. */
  ghost predicate Settling(messages: seq<PodMessage>) {
    forall i, j :: 0 <= j <= i < |messages| && Named(messages[j]) ==> !ResolvesInto(messages[i], messages[j].ip)
  }

  lemma KnownSettles(messages: seq<PodMessage>)
    requires Known(messages)
    ensures Settling(messages)
  {
  }

  /** A pass creates a raw node only by resolving into it. */
  lemma {:induction false} NotCreated(g: Graph, messages: seq<PodMessage>, ip: string)
    requires Stale(ip) !in g.nodes && forall i :: 0 <= i < |messages| ==> !ResolvesInto(messages[i], ip)
    ensures Stale(ip) !in HealedAll(g, messages).nodes
    decreases |messages|
  {
    if messages != [] {
      var info := messages[0].info;
      assert !ResolvesInto(messages[0], ip);
      var h := if Named(messages[0]) then Healed(g, messages[0].ip, info.applicationName, info.namespace) else g;
      assert Stale(ip) !in h.nodes;
      NotCreated(h, messages[1..], ip);
    }
  }

  lemma HealedAway(g: Graph, message: PodMessage)
    requires Named(message) && !ResolvesInto(message, message.ip)
    ensures Stale(message.ip) !in Healed(g, message.ip, message.info.applicationName, message.info.namespace).nodes
  {
  }

  /** After a settling pass no raw node remains for an IP listed with a name. */
  lemma {:induction false} PassSettles(g: Graph, messages: seq<PodMessage>, ip: string)
    requires Settling(messages) && ListsNamed(messages, ip)
    ensures Stale(ip) !in HealedAll(g, messages).nodes
    decreases |messages|
  {
    ListsTail(messages, ip);
    var info, rest := messages[0].info, messages[1..];
    var h := if Named(messages[0]) then Healed(g, messages[0].ip, info.applicationName, info.namespace) else g;
    assert HealedAll(g, messages) == HealedAll(h, rest);
    if ListsNamed(rest, ip) {
      forall i, j | 0 <= j <= i < |rest| && Named(rest[j]) ensures !ResolvesInto(rest[i], rest[j].ip) {
        assert rest[i] == messages[i + 1] && rest[j] == messages[j + 1];
      }
      PassSettles(h, rest, ip);
    } else {
      assert !ResolvesInto(messages[0], ip);
      HealedAway(g, messages[0]);
      forall i | 0 <= i < |rest| ensures !ResolvesInto(rest[i], ip) {
        assert rest[i] == messages[i + 1];
      }
      NotCreated(h, rest, ip);
    }
  }

  /** Replaying a resync changes nothing: cache and graph are exactly as after
      the first pass, whatever the list and however often it repeats an IP,
      unless it resolves into a raw id it has already named. */
  lemma ResyncIdempotent(c: Core, messages: seq<PodMessage>)
    requires Settling(messages)
    ensures RecordPods(RecordPods(c, messages), messages) == RecordPods(c, messages)
  {
    var once := RecordPods(c, messages);
    RecordPodsParts(c, messages);
    RecordPodsParts(once, messages);
    InsertedTwice(c.pods, messages);
    forall ip | ListsNamed(messages, ip) ensures Stale(ip) !in once.graph.nodes {
      PassSettles(c.graph, messages, ip);
    }
    NothingToHeal(once.graph, messages);
  }

  /** After any pass no raw node remains for an IP listed with a name. */
  lemma ResyncClears(c: Core, messages: seq<PodMessage>, ip: string)
    requires Settling(messages) && ListsNamed(messages, ip)
    ensures Stale(ip) !in RecordPods(c, messages).graph.nodes
  {
    RecordPodsParts(c, messages);
    PassSettles(c.graph, messages, ip);
  }

  /** A pod may live in a namespace called "unknown", and then a replay can
      still change the graph: a node healed into a raw id is healed again. */
  lemma UnknownNamespaceReplays(c: Core, ip: string, other: string, info: PodInfo, odd: PodInfo)
    requires Stale(ip) in c.graph.nodes && ip != other
    requires info.namespace != UNKNOWN && info.applicationName != ""
    requires odd.namespace == UNKNOWN && odd.applicationName == other && other != ""
    ensures var messages := [PodMessage(other, info), PodMessage(ip, odd)];
            RecordPods(RecordPods(c, messages), messages) != RecordPods(c, messages)
  {
    var messages := [PodMessage(other, info), PodMessage(ip, odd)];
    var once, twice := RecordPods(c, messages), RecordPods(RecordPods(c, messages), messages);
    PassOverUnknown(c, ip, other, info, odd);
    PassOverUnknown(once, ip, other, info, odd);
    assert Stale(other) in once.graph.nodes && Stale(ip) !in once.graph.nodes;
    assert Stale(other) !in twice.graph.nodes;
  }

  lemma PassOverUnknown(c: Core, ip: string, other: string, info: PodInfo, odd: PodInfo)
    requires ip != other && info.namespace != UNKNOWN && info.applicationName != ""
    requires odd.namespace == UNKNOWN && odd.applicationName == other && other != ""
    ensures var d := RecordPods(c, [PodMessage(other, info), PodMessage(ip, odd)]);
            && (Stale(other) in d.graph.nodes <==> Stale(ip) in c.graph.nodes)
            && Stale(ip) !in d.graph.nodes
  {
    var first, second := PodMessage(other, info), PodMessage(ip, odd);
    var d := RecordPod(c, first);
    assert [first, second][1..] == [second] && [second][1..] == [];
    assert RecordPods(c, [first, second]) == RecordPods(d, [second]) == RecordPods(RecordPod(d, second), []);
    assert Stale(ip) != Stale(other) by { assert Stale(ip).applicationName != Stale(other).applicationName; }
    HealedNodes(c.graph, other, info.applicationName, info.namespace, Stale(ip));
    HealedNodes(c.graph, other, info.applicationName, info.namespace, Stale(other));
  }
}
