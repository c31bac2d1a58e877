/** The topology object: three maps updated in place. */
module Topology {
  import opened Bags
  import opened Graph
  import Subgraph

  class Topology {
    var nodes: map<NodeId, NodeData>
    var upstream: Index
    var downstream: Index

    function State(): Graph
      reads this
    {
      Graph(nodes, upstream, downstream)
    }

    constructor ()
      ensures State() == EMPTY
    {
      nodes, upstream, downstream := map[], map[], map[];
    }

    method AddNode(id: NodeId, data: NodeData)
      modifies this
      ensures State() == WithNode(old(State()), id, data)
    {
      if id in nodes {
        return;
      }
      nodes := nodes[id := data];
    }

    method AddFlow(flow: Flow)
      modifies this
      ensures State() == WithFlow(old(State()), flow)
    {
      var upstreamFlows := if flow.destination in upstream then upstream[flow.destination] else [];
      if flow !in upstreamFlows {
        upstreamFlows := upstreamFlows + [flow];
      }
      upstream := upstream[flow.destination := upstreamFlows];
      var downstreamFlows := if flow.source in downstream then downstream[flow.source] else [];
      if flow !in downstreamFlows {
        downstreamFlows := downstreamFlows + [flow];
      }
      downstream := downstream[flow.source := downstreamFlows];
    }

    method AddK8sEvent(id: NodeId, event: K8sEvent)
      modifies this
      ensures State() == WithEvent(old(State()), id, event)
    {
      if id in nodes {
        var data := nodes[id];
        nodes := nodes[id := data.(k8sEvents := data.k8sEvents + [event])];
      }
    }

    method ResolveUnknownNode(ip: string, applicationName: string, namespace: string)
      modifies this
      ensures State() == Healed(old(State()), ip, applicationName, namespace)
    {
      var stale := NodeId(ip, "unknown");
      if stale !in nodes {
        return;
      }
      var resolved := NodeId(applicationName, namespace);
      var data := nodes[stale];
      nodes := nodes - {stale};
      if resolved !in nodes {
        nodes := nodes[resolved := data];
      }
      upstream := Move(upstream, stale, resolved);
      downstream := Move(downstream, stale, resolved);
      upstream := RenameEndpoints(upstream, stale, resolved);
      downstream := RenameEndpoints(downstream, stale, resolved);
    }

    static method Move(index: Index, stale: NodeId, resolved: NodeId) returns (moved: Index)
      ensures moved == MoveBucket(index, stale, resolved)
    {
      moved := index;
      if stale in moved {
        var flows := moved[stale];
        moved := moved - {stale};
        var bucket := if resolved in moved then moved[resolved] else [];
        moved := moved[resolved := bucket + flows];
      }
    }

    static method RenameBucket(bucket: seq<Flow>, stale: NodeId, resolved: NodeId) returns (flows: seq<Flow>)
      ensures flows == MapSeq(bucket, Renamer(stale, resolved))
    {
      flows := bucket;
      for i := 0 to |flows|
        invariant |flows| == |bucket|
        invariant forall j :: 0 <= j < i ==> flows[j] == RenameFlow(bucket[j], stale, resolved)
        invariant forall j :: i <= j < |flows| ==> flows[j] == bucket[j]
      {
        var flow := flows[i];
        if flow.source == stale {
          flow := flow.(source := resolved);
        }
        if flow.destination == stale {
          flow := flow.(destination := resolved);
        }
        flows := flows[i := flow];
      }
    }

    static method RenameEndpoints(index: Index, stale: NodeId, resolved: NodeId) returns (renamed: Index)
      ensures renamed == MapIndex(index, Renamer(stale, resolved))
    {
      renamed := index;
      var todo := index.Keys;
      while todo != {}
        invariant todo <= index.Keys && renamed.Keys == index.Keys
        invariant forall id :: id in todo ==> renamed[id] == index[id]
        invariant forall id :: id in index.Keys - todo ==> renamed[id] == MapSeq(index[id], Renamer(stale, resolved))
        decreases todo
      {
        var id :| id in todo;
        var flows := RenameBucket(renamed[id], stale, resolved);
        renamed := renamed[id := flows];
        todo := todo - {id};
      }
    }

    method GetSubgraph(rootApplication: string, rootNamespace: string, depth: nat) returns (r: Subgraph.SubgraphResult)
      ensures Subgraph.IsSubgraph(State(), NodeId(rootApplication, rootNamespace), depth, r)
    {
      r := Subgraph.GetSubgraph(State(), rootApplication, rootNamespace, depth);
    }
  }
}
