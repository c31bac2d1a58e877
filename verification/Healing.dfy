/** Healing renames the node of a raw IP once its pod is identified. It acts on
    the flows as a graph homomorphism, and independent heals commute. */
module Healing {
  import opened Bags
  import opened Graph

  ghost predicate Mentions(flow: Flow, id: NodeId) {
    flow.source == id || flow.destination == id
  }

  lemma MoveBucketFlat(index: Index, stale: NodeId, resolved: NodeId)
    ensures Flat(MoveBucket(index, stale, resolved)) == Flat(index)
  {
    if stale in index {
      var rest := index - {stale};
      FlatRemove(index, stale);
      FlatPut(rest, resolved, Bucket(rest, resolved) + index[stale]);
      if resolved in rest {
        FlatRemove(rest, resolved);
      } else {
        assert rest - {resolved} == rest;
      }
    }
  }

  lemma HealedIndexFlat(index: Index, stale: NodeId, resolved: NodeId)
    ensures Flat(HealedIndex(index, stale, resolved)) == Image(Flat(index), Renamer(stale, resolved))
  {
    MoveBucketFlat(index, stale, resolved);
    FlatMap(MoveBucket(index, stale, resolved), Renamer(stale, resolved));
  }

  /** Homomorphism: in both indexes the flows after healing are the renamed
      flows from before, with multiplicity, so their number is conserved. */
  lemma HealedFlows(g: Graph, ip: string, applicationName: string, namespace: string)
    requires Stale(ip) in g.nodes
    ensures var h := Healed(g, ip, applicationName, namespace);
            var rename := Renamer(Stale(ip), NodeId(applicationName, namespace));
            && Flows(h) == Image(Flows(g), rename)
            && Flat(h.upstream) == Image(Flat(g.upstream), rename)
            && |Flows(h)| == |Flows(g)|
            && |Flat(h.upstream)| == |Flat(g.upstream)|
            && h.nodes.Keys == g.nodes.Keys - {Stale(ip)} + {NodeId(applicationName, namespace)}
  {
    HealedIndexFlat(g.upstream, Stale(ip), NodeId(applicationName, namespace));
    HealedIndexFlat(g.downstream, Stale(ip), NodeId(applicationName, namespace));
  }

  /** The raw node's listings follow those of the resolved one; every other
      bucket keeps its order. */
  lemma HealedBuckets(g: Graph, ip: string, to: NodeId, id: NodeId)
    requires Stale(ip) in g.nodes && to != Stale(ip) && id != Stale(ip)
    ensures var h, rename := Healed(g, ip, to.applicationName, to.namespace), Renamer(Stale(ip), to);
            && Bucket(h.upstream, id)
               == MapSeq(Bucket(g.upstream, id) + (if id == to then Bucket(g.upstream, Stale(ip)) else []), rename)
            && Bucket(h.downstream, id)
               == MapSeq(Bucket(g.downstream, id) + (if id == to then Bucket(g.downstream, Stale(ip)) else []), rename)
  {
    HealedBucket(g.upstream, Stale(ip), to, id);
    HealedBucket(g.downstream, Stale(ip), to, id);
  }

  lemma HealedBucket(index: Index, stale: NodeId, to: NodeId, id: NodeId)
    requires to != stale && id != stale
    ensures Bucket(HealedIndex(index, stale, to), id)
         == MapSeq(Bucket(index, id) + (if id == to then Bucket(index, stale) else []), Renamer(stale, to))
  {
    var bucket := Bucket(index, id);
    assert bucket + [] == bucket;
  }

  /** When nothing mentions the raw IP, renaming it changes no flow. */
  lemma RenameAbsent(bag: multiset<Flow>, stale: NodeId, resolved: NodeId)
    requires forall flow :: flow in bag ==> !Mentions(flow, stale)
    ensures Image(bag, Renamer(stale, resolved)) == bag
  {
    ImageFixed(bag, Renamer(stale, resolved));
  }

  /** On a sound graph the renaming describes the flows even when the heal is a
      no-op, since a raw IP that is not a node is mentioned by no flow. */
  lemma HealedFlowsSound(g: Graph, ip: string, applicationName: string, namespace: string)
    requires Sound(g)
    ensures Flows(Healed(g, ip, applicationName, namespace))
         == Image(Flows(g), Renamer(Stale(ip), NodeId(applicationName, namespace)))
    ensures |Flows(Healed(g, ip, applicationName, namespace))| == |Flows(g)|
  {
    if Stale(ip) in g.nodes {
      HealedFlows(g, ip, applicationName, namespace);
    } else {
      RenameAbsent(Flows(g), Stale(ip), NodeId(applicationName, namespace));
    }
  }

  lemma MoveBucketFiled(index: Index, stale: NodeId, resolved: NodeId, id: NodeId, flow: Flow)
    requires id in MoveBucket(index, stale, resolved) && flow in MoveBucket(index, stale, resolved)[id]
    ensures exists origin :: origin in index && flow in index[origin] && Rename(origin, stale, resolved) == id
  {
    if stale in index && id == resolved {
      if flow in index[stale] {
        assert Rename(stale, stale, resolved) == id;
      } else {
        assert Rename(id, stale, resolved) == id;
      }
    } else {
      assert flow in index[id];
      assert Rename(id, stale, resolved) == id;
    }
  }

  /** A flow of a healed index is the renamed form of one filed before. */
  lemma HealedIndexOrigin(index: Index, stale: NodeId, resolved: NodeId, id: NodeId, flow: Flow)
    returns (origin: NodeId, before: Flow)
    requires id in HealedIndex(index, stale, resolved) && flow in HealedIndex(index, stale, resolved)[id]
    ensures origin in index && before in index[origin]
    ensures flow == RenameFlow(before, stale, resolved) && id == Rename(origin, stale, resolved)
  {
    var moved := MoveBucket(index, stale, resolved);
    var i :| 0 <= i < |moved[id]| && flow == RenameFlow(moved[id][i], stale, resolved);
    before := moved[id][i];
    MoveBucketFiled(index, stale, resolved, id, before);
    origin :| origin in index && before in index[origin] && Rename(origin, stale, resolved) == id;
  }

  lemma HealedFiled(g: Graph, ip: string, applicationName: string, namespace: string)
    requires Filed(g)
    ensures Filed(Healed(g, ip, applicationName, namespace))
  {
    var h := Healed(g, ip, applicationName, namespace);
    var stale, resolved := Stale(ip), NodeId(applicationName, namespace);
    if stale in g.nodes {
      forall id, flow | id in h.upstream && flow in h.upstream[id] ensures flow.destination == id {
        var origin, before := HealedIndexOrigin(g.upstream, stale, resolved, id, flow);
      }
      forall id, flow | id in h.downstream && flow in h.downstream[id] ensures flow.source == id {
        var origin, before := HealedIndexOrigin(g.downstream, stale, resolved, id, flow);
      }
    }
  }

  /** Healing keeps the structural invariant, merges included. */
  lemma HealedSound(g: Graph, ip: string, applicationName: string, namespace: string)
    requires Sound(g)
    ensures Sound(Healed(g, ip, applicationName, namespace))
  {
    var h := Healed(g, ip, applicationName, namespace);
    if Stale(ip) in g.nodes {
      HealedFiled(g, ip, applicationName, namespace);
      HealedFlows(g, ip, applicationName, namespace);
      forall flow | flow in Flows(h) ensures flow.source in h.nodes && flow.destination in h.nodes {
        var before := ImageMember(Flows(g), Renamer(Stale(ip), NodeId(applicationName, namespace)), flow);
      }
    }
  }

  /** Healing passes the data of the raw IP's node on to a new node and drops it
      on a merge, attached Kubernetes events included; no other node changes. */
  lemma HealedData(g: Graph, ip: string, to: NodeId, id: NodeId)
    requires Stale(ip) in g.nodes && to != Stale(ip)
    ensures id in HealedTo(g, ip, to).nodes <==> id == to || (id in g.nodes && id != Stale(ip))
    ensures id in g.nodes && id != Stale(ip) ==> HealedTo(g, ip, to).nodes[id] == g.nodes[id]
    ensures to !in g.nodes ==> HealedTo(g, ip, to).nodes[to] == g.nodes[Stale(ip)]
  {
  }

  /** After healing a sound graph into a different id, the raw IP is gone:
      it is no node, keys no bucket and ends no flow. */
  lemma HealedForgets(g: Graph, ip: string, applicationName: string, namespace: string)
    requires Sound(g) && NodeId(applicationName, namespace) != Stale(ip)
    ensures var h := Healed(g, ip, applicationName, namespace);
            && Stale(ip) !in h.nodes
            && (forall flow :: flow in Flows(h) || flow in Flat(h.upstream) ==> !Mentions(flow, Stale(ip)))
            && (Stale(ip) in g.nodes ==> Stale(ip) !in h.upstream && Stale(ip) !in h.downstream)
  {
    var h := Healed(g, ip, applicationName, namespace);
    HealedSound(g, ip, applicationName, namespace);
    if Stale(ip) in g.nodes {
      assert Stale(ip) !in h.nodes by { HealedFlows(g, ip, applicationName, namespace); }
      HealedIndexForgets(g.upstream, Stale(ip), NodeId(applicationName, namespace));
      HealedIndexForgets(g.downstream, Stale(ip), NodeId(applicationName, namespace));
    }
    SoundAvoids(h, Stale(ip));
  }

  lemma HealedIndexForgets(index: Index, stale: NodeId, resolved: NodeId)
    requires stale != resolved
    ensures stale !in HealedIndex(index, stale, resolved)
  {
  }

  lemma SoundAvoids(g: Graph, id: NodeId)
    requires Sound(g) && id !in g.nodes
    ensures forall flow :: flow in Flows(g) || flow in Flat(g.upstream) ==> !Mentions(flow, id)
  {
  }

  /** Healing keeps a duplicate-free graph duplicate-free exactly when the
      renaming identifies no two of its flows. */
  lemma HealedNoDuplicates(g: Graph, ip: string, applicationName: string, namespace: string)
    requires Stale(ip) in g.nodes && NoDuplicates(Flows(g))
    ensures NoDuplicates(Flows(Healed(g, ip, applicationName, namespace)))
       <==> InjectiveOn(Flows(g), Renamer(Stale(ip), NodeId(applicationName, namespace)))
  {
    HealedFlows(g, ip, applicationName, namespace);
    ImageNoDuplicates(Flows(g), Renamer(Stale(ip), NodeId(applicationName, namespace)));
  }

  /** In particular, when the resolved id is mentioned nowhere. */
  lemma FreshNoDuplicates(g: Graph, ip: string, applicationName: string, namespace: string)
    requires NoDuplicates(Flows(g))
    requires forall flow :: flow in Flows(g) ==> !Mentions(flow, NodeId(applicationName, namespace))
    ensures NoDuplicates(Flows(Healed(g, ip, applicationName, namespace)))
  {
    if Stale(ip) in g.nodes {
      HealedNoDuplicates(g, ip, applicationName, namespace);
    }
  }

  /** A merge can list equal flows twice: `caller` called both the raw IP and
      the service it turns out to be. */
  lemma MergeDuplicates(caller: NodeId, ip: string, service: NodeId, path: string, httpMethod: string,
                        callerIp: string)
    requires caller != Stale(ip) && service != Stale(ip)
    ensures var early := Flow(caller, Stale(ip), path, httpMethod);
            var late := Flow(caller, service, path, httpMethod);
            var g := WithCall(WithCall(EMPTY, early, callerIp, ip), late, callerIp, ip);
            && NoDuplicates(Flows(g))
            && Flows(Healed(g, ip, service.applicationName, service.namespace))[late] == 2
  {
    var early := Flow(caller, Stale(ip), path, httpMethod);
    var late := Flow(caller, service, path, httpMethod);
    var first := WithCall(EMPTY, early, callerIp, ip);
    var g := WithCall(first, late, callerIp, ip);
    assert Flows(first) == multiset{} + multiset{early} && Sound(first) by {
      CallFlows(EMPTY, early, callerIp, ip);
      CallSound(EMPTY, early, callerIp, ip);
    }
    assert Flows(g) == multiset{} + multiset{early} + multiset{late} by {
      CallFlows(first, late, callerIp, ip);
    }
    HealedFlows(g, ip, service.applicationName, service.namespace);
    DoubledImage(early, late, Renamer(Stale(ip), service));
  }

  lemma DoubledImage<A>(a: A, b: A, f: A -> A)
    requires f(a) == b && f(b) == b
    ensures Image(multiset{} + multiset{a} + multiset{b}, f)[b] == 2
  {
    ImageAdd(multiset{} + multiset{a}, b, f);
    ImageAdd(multiset{}, a, f);
  }

  lemma RenameCommutes(id: NodeId, stale1: NodeId, to1: NodeId, stale2: NodeId, to2: NodeId)
    requires stale1 != stale2 && to1 != stale2 && to2 != stale1
    ensures Rename(Rename(id, stale1, to1), stale2, to2) == Rename(Rename(id, stale2, to2), stale1, to1)
  {
  }

  lemma RenamerOrder(flow: Flow, stale1: NodeId, to1: NodeId, stale2: NodeId, to2: NodeId)
    requires stale1 != stale2 && to1 != stale2 && to2 != stale1
    ensures Then(Renamer(stale1, to1), Renamer(stale2, to2))(flow)
         == Then(Renamer(stale2, to2), Renamer(stale1, to1))(flow)
  {
    calc {
      Then(Renamer(stale1, to1), Renamer(stale2, to2))(flow);
      RenameFlow(RenameFlow(flow, stale1, to1), stale2, to2);
      { RenameCommutes(flow.source, stale1, to1, stale2, to2);
        RenameCommutes(flow.destination, stale1, to1, stale2, to2); }
      RenameFlow(RenameFlow(flow, stale2, to2), stale1, to1);
      Then(Renamer(stale2, to2), Renamer(stale1, to1))(flow);
    }
  }

  lemma RenamersCommute(bag: multiset<Flow>, stale1: NodeId, to1: NodeId, stale2: NodeId, to2: NodeId)
    requires stale1 != stale2 && to1 != stale2 && to2 != stale1
    ensures Image(Image(bag, Renamer(stale1, to1)), Renamer(stale2, to2))
         == Image(Image(bag, Renamer(stale2, to2)), Renamer(stale1, to1))
  {
    var r1, r2 := Renamer(stale1, to1), Renamer(stale2, to2);
    forall flow | flow in bag ensures Then(r1, r2)(flow) == Then(r2, r1)(flow) {
      RenamerOrder(flow, stale1, to1, stale2, to2);
    }
    ImageAgree(bag, Then(r1, r2), Then(r2, r1));
    ImageCompose(bag, r1, r2);
    ImageCompose(bag, r2, r1);
  }

  function HealedTo(g: Graph, ip: string, to: NodeId): Graph {
    Healed(g, ip, to.applicationName, to.namespace)
  }

  /** `h` has the nodes and flows of `g` after renaming `stale`, if it is there. */
  ghost predicate RenamedFrom(g: Graph, stale: NodeId, to: NodeId, h: Graph) {
    if stale in g.nodes then
      && h.nodes.Keys == g.nodes.Keys - {stale} + {to}
      && Flows(h) == Image(Flows(g), Renamer(stale, to))
      && Flat(h.upstream) == Image(Flat(g.upstream), Renamer(stale, to))
    else h == g
  }

  lemma HealedToRenames(g: Graph, ip: string, to: NodeId)
    ensures RenamedFrom(g, Stale(ip), to, HealedTo(g, ip, to))
  {
    if Stale(ip) in g.nodes {
      HealedFlows(g, ip, to.applicationName, to.namespace);
    }
  }

  lemma RenamedCommute(g: Graph, stale1: NodeId, to1: NodeId, stale2: NodeId, to2: NodeId,
                       h1: Graph, h12: Graph, h2: Graph, h21: Graph)
    requires stale1 != stale2 && to1 != stale2 && to2 != stale1
    requires RenamedFrom(g, stale1, to1, h1) && RenamedFrom(h1, stale2, to2, h12)
    requires RenamedFrom(g, stale2, to2, h2) && RenamedFrom(h2, stale1, to1, h21)
    ensures h12.nodes.Keys == h21.nodes.Keys
    ensures Flows(h12) == Flows(h21)
    ensures Flat(h12.upstream) == Flat(h21.upstream)
  {
    StillThere(g, stale1, to1, h1, stale2);
    StillThere(g, stale2, to2, h2, stale1);
    if stale1 in g.nodes && stale2 in g.nodes {
      BothRenamed(g, stale1, to1, stale2, to2, h1, h12, h2, h21);
    }
  }

  lemma StillThere(g: Graph, stale: NodeId, to: NodeId, h: Graph, id: NodeId)
    requires RenamedFrom(g, stale, to, h) && id != stale && id != to
    ensures id in h.nodes <==> id in g.nodes
  {
    assert id in h.nodes <==> id in h.nodes.Keys;
  }

  lemma BothRenamed(g: Graph, stale1: NodeId, to1: NodeId, stale2: NodeId, to2: NodeId,
                    h1: Graph, h12: Graph, h2: Graph, h21: Graph)
    requires stale1 != stale2 && to1 != stale2 && to2 != stale1
    requires stale1 in g.nodes && stale2 in g.nodes && stale2 in h1.nodes && stale1 in h2.nodes
    requires RenamedFrom(g, stale1, to1, h1) && RenamedFrom(h1, stale2, to2, h12)
    requires RenamedFrom(g, stale2, to2, h2) && RenamedFrom(h2, stale1, to1, h21)
    ensures h12.nodes.Keys == h21.nodes.Keys
    ensures Flows(h12) == Flows(h21)
    ensures Flat(h12.upstream) == Flat(h21.upstream)
  {
    RenamersCommute(Flows(g), stale1, to1, stale2, to2);
    RenamersCommute(Flat(g.upstream), stale1, to1, stale2, to2);
    KeysCommute(g.nodes.Keys, stale1, to1, stale2, to2);
  }

  lemma KeysCommute(keys: set<NodeId>, stale1: NodeId, to1: NodeId, stale2: NodeId, to2: NodeId)
    requires stale1 != stale2 && to1 != stale2 && to2 != stale1
    ensures keys - {stale1} + {to1} - {stale2} + {to2} == keys - {stale2} + {to2} - {stale1} + {to1}
  {
  }

  /** Two heals of different IPs, neither into the "unknown" namespace, give
      the same nodes and the same flows in either order. */
  lemma HealsCommute(g: Graph, ip1: string, to1: NodeId, ip2: string, to2: NodeId)
    requires ip1 != ip2 && to1.namespace != UNKNOWN && to2.namespace != UNKNOWN
    ensures var h12 := HealedTo(HealedTo(g, ip1, to1), ip2, to2);
            var h21 := HealedTo(HealedTo(g, ip2, to2), ip1, to1);
            && h12.nodes.Keys == h21.nodes.Keys
            && Flows(h12) == Flows(h21)
            && Flat(h12.upstream) == Flat(h21.upstream)
  {
    var h1, h2 := HealedTo(g, ip1, to1), HealedTo(g, ip2, to2);
    HealedToRenames(g, ip1, to1);
    HealedToRenames(h1, ip2, to2);
    HealedToRenames(g, ip2, to2);
    HealedToRenames(h2, ip1, to1);
    RenamedCommute(g, Stale(ip1), to1, Stale(ip2), to2, h1, HealedTo(h1, ip2, to2), h2, HealedTo(h2, ip1, to1));
  }
}
