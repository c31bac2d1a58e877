/** The view of the graph rooted at one service: a depth-bounded breadth-first
    search that also records a spanning tree, and the flows filtered by it. */
module Subgraph {
  import opened Bags
  import opened Graph
  import opened Lists
  import opened Paths

  type Tree = set<(NodeId, NodeId)>

  datatype SubgraphResult = SubgraphResult(nodes: set<NodeId>, upstream: Index, downstream: Index)

  /** One edge per downstream bucket key and destination listed in it. */
  ghost function Calls(index: Index): (r: set<(NodeId, NodeId)>)
    ensures forall id, flow :: id in index && flow in index[id] ==> (id, flow.destination) in r
    ensures forall e :: e in r ==> e.0 in index && exists flow :: flow in index[e.0] && flow.destination == e.1
  {
    set id, flow | id in index && flow in index[id] :: (id, flow.destination)
  }

  /** `parent` is one hop nearer to the root than `child`. */
  ghost predicate OneHopNearer(edges: Tree, root: NodeId, parent: NodeId, child: NodeId) {
    exists hops: nat :: AtDistance(edges, root, parent, hops) && AtDistance(edges, root, child, hops + 1)
  }

  /** `tree` is a shortest-path spanning tree of `visited`: its edges are calls
      one hop outwards, every visited vertex but the root has exactly one
      parent, and the root has none. */
  ghost predicate SpanningTree(edges: Tree, root: NodeId, visited: set<NodeId>, tree: Tree) {
    && Outward(edges, root, visited, tree)
    && (forall v :: v in visited && v != root ==> exists u :: (u, v) in tree)
    && (forall d, e :: d in tree && e in tree && d.1 == e.1 ==> d == e)
  }

  ghost predicate Outward(edges: Tree, root: NodeId, visited: set<NodeId>, tree: Tree) {
    forall e :: e in tree ==>
      && e in edges && e.0 in visited && e.1 in visited && e.1 != root
      && OneHopNearer(edges, root, e.0, e.1)
  }

  ghost function Destinations(flows: seq<Flow>): (r: set<NodeId>)
    ensures forall v :: v in r <==> exists flow :: flow in flows && flow.destination == v
  {
    set flow | flow in flows :: flow.destination
  }

  lemma OutOne(index: Index, id: NodeId)
    ensures Out(Calls(index), {id}) == Destinations(Bucket(index, id))
  {
    forall v | v in Out(Calls(index), {id}) ensures v in Destinations(Bucket(index, id)) {
      assert (id, v).0 in index;
      assert exists flow :: flow in index[(id, v).0] && flow.destination == (id, v).1;
    }
  }

  lemma OutGrows(index: Index, frontier: seq<NodeId>, i: nat)
    requires i < |frontier|
    ensures Out(Calls(index), Elements(frontier[..i + 1]))
         == Out(Calls(index), Elements(frontier[..i])) + Destinations(Bucket(index, frontier[i]))
  {
    OutOne(index, frontier[i]);
    assert frontier[..i + 1] == frontier[..i] + [frontier[i]];
    assert Elements(frontier[..i + 1]) == Elements(frontier[..i]) + {frontier[i]};
    OutUnion(Calls(index), Elements(frontier[..i]), {frontier[i]});
  }

  lemma DestinationsGrow(flows: seq<Flow>, j: nat)
    requires j < |flows|
    ensures Destinations(flows[..j + 1]) == Destinations(flows[..j]) + {flows[j].destination}
  {
    assert flows[..j + 1] == flows[..j] + [flows[j]];
  }

  ghost function Spokes(parent: NodeId, children: set<NodeId>): Tree {
    set child | child in children :: (parent, child)
  }

  lemma SpokesOutward(edges: Tree, root: NodeId, visited: set<NodeId>, parent: NodeId, children: set<NodeId>, hops: nat)
    requires root in visited && parent in visited && children !! visited
    requires AtDistance(edges, root, parent, hops)
    requires forall child :: child in children ==> (parent, child) in edges && child !in Ball(edges, root, hops)
    ensures Outward(edges, root, visited + children, Spokes(parent, children))
  {
    forall e | e in Spokes(parent, children) ensures OneHopNearer(edges, root, e.0, e.1) {
      BallStep(edges, root, parent, e.1, hops);
      assert AtDistance(edges, root, e.1, hops + 1);
    }
  }

  lemma ParentsGrow(visited: set<NodeId>, root: NodeId, tree: Tree, parent: NodeId, children: set<NodeId>)
    requires forall v :: v in visited && v != root ==> exists u :: (u, v) in tree
    ensures forall v :: v in visited + children && v != root ==> exists u :: (u, v) in tree + Spokes(parent, children)
  {
    forall v | v in visited + children && v != root ensures exists u :: (u, v) in tree + Spokes(parent, children) {
      if v in children {
        assert (parent, v) in Spokes(parent, children);
      } else {
        var u :| (u, v) in tree;
        assert (u, v) in tree + Spokes(parent, children);
      }
    }
  }

  /** Newly discovered vertices join the tree under the vertex being expanded. */
  lemma TreeGrows(edges: Tree, root: NodeId, visited: set<NodeId>, tree: Tree, parent: NodeId, children: set<NodeId>,
                  hops: nat)
    requires SpanningTree(edges, root, visited, tree)
    requires root in visited && parent in visited && children !! visited
    requires AtDistance(edges, root, parent, hops)
    requires forall child :: child in children ==> (parent, child) in edges && child !in Ball(edges, root, hops)
    ensures SpanningTree(edges, root, visited + children, tree + Spokes(parent, children))
  {
    SpokesOutward(edges, root, visited, parent, children, hops);
    ParentsGrow(visited, root, tree, parent, children);
  }

  /** Follows the calls of one vertex of the frontier. */
  method Expand(index: Index, node: NodeId, seen: set<NodeId>, before: Tree)
    returns (visited: set<NodeId>, tree: Tree, found: seq<NodeId>)
    ensures visited == seen + Destinations(Bucket(index, node))
    ensures Elements(found) == visited - seen
    ensures tree == before + Spokes(node, visited - seen)
  {
    visited, tree, found := seen, before, [];
    if node in index {
      var flows := index[node];
      for j := 0 to |flows|
        invariant visited == seen + Destinations(flows[..j])
        invariant Elements(found) == visited - seen
        invariant tree == before + Spokes(node, visited - seen)
      {
        var destination := flows[j].destination;
        DestinationsGrow(flows, j);
        if destination !in visited {
          assert visited + {destination} - seen == visited - seen + {destination};
          visited := visited + {destination};
          tree := tree + {(node, destination)};
          found := found + [destination];
        }
      }
      assert flows[..|flows|] == flows;
    }
  }

  lemma ExpandKeepsTree(index: Index, root: NodeId, node: NodeId, seen: set<NodeId>, before: Tree, hops: nat)
    requires AtDistance(Calls(index), root, node, hops)
    requires Ball(Calls(index), root, hops) <= seen && root in seen
    requires SpanningTree(Calls(index), root, seen, before)
    ensures var gained := Destinations(Bucket(index, node)) - seen;
            SpanningTree(Calls(index), root, seen + gained, before + Spokes(node, gained))
  {
    TreeGrows(Calls(index), root, seen, before, node, Destinations(Bucket(index, node)) - seen, hops);
  }

  /** Expands a whole level. */
  method Level(index: Index, root: NodeId, frontier: seq<NodeId>, seen: set<NodeId>, before: Tree, ghost hops: nat)
    returns (visited: set<NodeId>, tree: Tree, next: seq<NodeId>)
    requires forall v :: v in frontier ==> AtDistance(Calls(index), root, v, hops)
    requires Ball(Calls(index), root, hops) <= seen && root in seen
    requires SpanningTree(Calls(index), root, seen, before)
    ensures visited == seen + Out(Calls(index), Elements(frontier))
    ensures Elements(next) == visited - seen
    ensures SpanningTree(Calls(index), root, visited, tree)
  {
    visited, tree, next := seen, before, [];
    for i := 0 to |frontier|
      invariant visited == seen + Out(Calls(index), Elements(frontier[..i]))
      invariant Elements(next) == visited - seen
      invariant SpanningTree(Calls(index), root, visited, tree)
    {
      ghost var targets := Destinations(Bucket(index, frontier[i]));
      ghost var was := visited;
      OutGrows(index, frontier, i);
      ExpandKeepsTree(index, root, frontier[i], visited, tree, hops);
      var found;
      visited, tree, found := Expand(index, frontier[i], visited, tree);
      Accumulated(seen, Out(Calls(index), Elements(frontier[..i])), targets, was, next, visited, found);
      next := next + found;
    }
    assert frontier[..|frontier|] == frontier;
  }

  /** The search visits exactly the vertices within `depth` calls of the root;
      stopping early on an empty frontier loses none of them. */
  method Search(index: Index, root: NodeId, depth: nat) returns (visited: set<NodeId>, tree: Tree)
    ensures visited == Ball(Calls(index), root, depth)
    ensures SpanningTree(Calls(index), root, visited, tree)
  {
    visited, tree := {root}, {};
    var frontier := [root];
    for hops := 0 to depth
      invariant visited == Ball(Calls(index), root, hops) && root in visited
      invariant forall v :: v in Elements(frontier) <==> AtDistance(Calls(index), root, v, hops)
      invariant SpanningTree(Calls(index), root, visited, tree)
    {
      if |frontier| == 0 {
        FrontierSuffices(Calls(index), root, {}, hops);
        BallFixed(Calls(index), root, hops, depth);
        break;
      }
      ghost var level, was := Elements(frontier), visited;
      forall v | v in frontier ensures AtDistance(Calls(index), root, v, hops) {
        assert v in level;
      }
      visited, tree, frontier := Level(index, root, frontier, visited, tree, hops);
      LevelIsBall(Calls(index), root, level, hops, visited);
    }
  }

  function Filter<T>(s: seq<T>, keep: T -> bool): (r: seq<T>)
  {
    if s == [] then []
    else if keep(s[0]) then [s[0]] + Filter(s[1..], keep)
    else Filter(s[1..], keep)
  }

  lemma {:induction false} FilterCount<T>(s: seq<T>, keep: T -> bool, x: T)
    ensures multiset(Filter(s, keep))[x] == if keep(x) then multiset(s)[x] else 0
  {
    if s != [] {
      FilterCount(s[1..], keep, x);
      assert s == [s[0]] + s[1..];
    }
  }

  ghost function Keeping<T(!new)>(keep: T -> bool): (T, T) -> bool { (s, t) => s == t && keep(s) }

  lemma {:induction false} FilterLast<T>(front: seq<T>, last: T, keep: T -> bool)
    ensures Filter(front + [last], keep) == Filter(front, keep) + if keep(last) then [last] else []
  {
    var s := front + [last];
    if front == [] {
      assert s[1..] == [];
    } else {
      assert s[1..] == front[1..] + [last];
      FilterLast(front[1..], last, keep);
    }
  }

  /** Filtering keeps the order of what it keeps. */
  lemma {:induction false} FilterInOrder<T(!new)>(s: seq<T>, keep: T -> bool)
    ensures InOrder(s, Filter(s, keep), Keeping(keep))
  {
    if s != [] {
      var n := |s| - 1;
      var front := Filter(s[..n], keep);
      FilterInOrder(s[..n], keep);
      FilterLast(s[..n], s[n], keep);
      assert s == s[..n] + [s[n]];
      if keep(s[n]) {
        assert Keeping(keep)(s[n], s[n]);
        assert Filter(s, keep)[..|front|] == front;
      } else {
        assert Filter(s, keep) == front;
      }
    }
  }

  /** The flows that reach `node` along the tree. */
  function TreeInflows(flows: seq<Flow>, tree: Tree, node: NodeId): seq<Flow> {
    Filter(flows, (flow: Flow) => (flow.source, node) in tree)
  }

  /** The flows that leave `node` along the tree. */
  function TreeOutflows(flows: seq<Flow>, tree: Tree, node: NodeId): seq<Flow> {
    Filter(flows, (flow: Flow) => (node, flow.destination) in tree)
  }

  function VisibleIn(g: Graph, root: NodeId, tree: Tree, node: NodeId): seq<Flow> {
    if node == root then Bucket(g.upstream, root) else TreeInflows(Bucket(g.upstream, node), tree, node)
  }

  function VisibleOut(g: Graph, root: NodeId, tree: Tree, node: NodeId): seq<Flow> {
    if node == root then Bucket(g.downstream, root) else TreeOutflows(Bucket(g.downstream, node), tree, node)
  }

  ghost function Callers(g: Graph, root: NodeId): set<NodeId> {
    set flow | flow in Bucket(g.upstream, root) :: flow.source
  }

  /** The indexes shown for the vertices in `done`: all flows of the root, and
      the tree flows of every other vertex. */
  ghost predicate ShowsFlows(g: Graph, root: NodeId, done: set<NodeId>, tree: Tree, upstream: Index,
                             downstream: Index) {
    && (forall id ::
          id in upstream <==>
            id in done && (if id == root then root in g.upstream else VisibleIn(g, root, tree, id) != []))
    && (forall id ::
          id in downstream <==>
            id in done && (if id == root then root in g.downstream else VisibleOut(g, root, tree, id) != []))
    && (forall id :: id in upstream ==> upstream[id] == VisibleIn(g, root, tree, id))
    && (forall id :: id in downstream ==> downstream[id] == VisibleOut(g, root, tree, id))
  }

  /** `r` shows the visited vertices, their flows and the callers of the root. */
  ghost predicate Shows(g: Graph, root: NodeId, visited: set<NodeId>, tree: Tree, r: SubgraphResult) {
    && r.nodes == visited + Callers(g, root)
    && ShowsFlows(g, root, visited, tree, r.upstream, r.downstream)
  }

  method CollectCallers(g: Graph, root: NodeId) returns (callers: set<NodeId>)
    ensures callers == Callers(g, root)
  {
    callers := {};
    if root in g.upstream {
      var flows := g.upstream[root];
      for j := 0 to |flows|
        invariant callers == set flow | flow in flows[..j] :: flow.source
      {
        assert flows[..j + 1] == flows[..j] + [flows[j]];
        callers := callers + {flows[j].source};
      }
      assert flows[..|flows|] == flows;
    }
  }

  method FilterFlows(g: Graph, root: NodeId, visited: set<NodeId>, tree: Tree)
    returns (upstream: Index, downstream: Index)
    requires root in visited
    ensures ShowsFlows(g, root, visited, tree, upstream, downstream)
  {
    upstream, downstream := map[], map[];
    if root in g.upstream {
      upstream := upstream[root := g.upstream[root]];
    }
    if root in g.downstream {
      downstream := downstream[root := g.downstream[root]];
    }
    var todo := visited - {root};
    while todo != {}
      invariant todo <= visited - {root}
      invariant ShowsFlows(g, root, visited - todo, tree, upstream, downstream)
      decreases todo
    {
      var node :| node in todo;
      var inflows := TreeInflows(Bucket(g.upstream, node), tree, node);
      if inflows != [] {
        upstream := upstream[node := inflows];
      }
      var outflows := TreeOutflows(Bucket(g.downstream, node), tree, node);
      if outflows != [] {
        downstream := downstream[node := outflows];
      }
      todo := todo - {node};
    }
    assert visited - todo == visited;
  }

  /** The subgraph of an unknown root is empty; otherwise it shows the vertices
      within `depth` calls of the root through some shortest-path tree. */
  ghost predicate IsSubgraph(g: Graph, root: NodeId, depth: nat, r: SubgraphResult) {
    if root in g.nodes then
      && r.nodes == Ball(Calls(g.downstream), root, depth) + Callers(g, root)
      && exists tree :: SpanningTree(Calls(g.downstream), root, Ball(Calls(g.downstream), root, depth), tree)
                     && Shows(g, root, Ball(Calls(g.downstream), root, depth), tree, r)
    else r == SubgraphResult({}, map[], map[])
  }

  method GetSubgraph(g: Graph, rootApplication: string, rootNamespace: string, depth: nat) returns (r: SubgraphResult)
    ensures IsSubgraph(g, NodeId(rootApplication, rootNamespace), depth, r)
  {
    var root := NodeId(rootApplication, rootNamespace);
    if root !in g.nodes {
      return SubgraphResult({}, map[], map[]);
    }
    var visited, tree := Search(g.downstream, root, depth);
    BallMonotone(Calls(g.downstream), root, 0, depth);
    var callers := CollectCallers(g, root);
    var upstream, downstream := FilterFlows(g, root, visited, tree);
    r := SubgraphResult(visited + callers, upstream, downstream);
    assert Shows(g, root, visited, tree, r);
  }

  lemma CallsOfSound(g: Graph, u: NodeId, v: NodeId)
    requires Sound(g)
    ensures (u, v) in Calls(g.downstream) <==> (u, v) in Pairs(g)
  {
    if (u, v) in Calls(g.downstream) {
      assert (u, v).0 in g.downstream;
      var flow :| flow in g.downstream[(u, v).0] && flow.destination == (u, v).1;
      FlatMember(g.downstream, flow);
      assert flow in Flows(g) && (flow.source, flow.destination) == (u, v);
    }
    if (u, v) in Pairs(g) {
      var flow :| flow in Flows(g) && (flow.source, flow.destination) == (u, v);
      FlatMember(g.downstream, flow);
      var id :| id in g.downstream && flow in g.downstream[id];
      assert id == u;
    }
  }

  lemma NearerToCallee(edges: Tree, root: NodeId, u: NodeId, v: NodeId)
    requires (root, v) in edges && v != root && OneHopNearer(edges, root, u, v)
    ensures u == root
  {
    CalleeDistance(edges, root, v);
    var hops: nat :| AtDistance(edges, root, u, hops) && AtDistance(edges, root, v, hops + 1);
    DistanceUnique(edges, root, v, 1, hops + 1);
    assert AtDistance(edges, root, u, 0);
  }

  lemma CalleeDistance(edges: Tree, root: NodeId, v: NodeId)
    requires (root, v) in edges && v != root
    ensures AtDistance(edges, root, v, 1)
  {
    BallStep(edges, root, root, v, 0);
  }

  /** In a tree of depth at least one, the root is the parent of its callees. */
  lemma RootIsParent(edges: Tree, root: NodeId, depth: nat, tree: Tree, v: NodeId)
    requires depth >= 1 && SpanningTree(edges, root, Ball(edges, root, depth), tree)
    requires (root, v) in edges && v != root
    ensures v in Ball(edges, root, depth) && (root, v) in tree
  {
    BallStep(edges, root, root, v, 0);
    BallMonotone(edges, root, 1, depth);
    var u :| (u, v) in tree;
    assert OneHopNearer(edges, root, (u, v).0, (u, v).1);
    NearerToCallee(edges, root, u, v);
  }

  /** The flow is listed under its destination as often as under its source. */
  ghost predicate MirroredIn(r: SubgraphResult, flow: Flow) {
    multiset(Bucket(r.upstream, flow.destination))[flow] == multiset(Bucket(r.downstream, flow.source))[flow]
  }

  lemma VisibleInCount(g: Graph, root: NodeId, tree: Tree, flow: Flow)
    requires Sound(g)
    ensures multiset(VisibleIn(g, root, tree, flow.destination))[flow]
         == if flow.destination == root || (flow.source, flow.destination) in tree then Flows(g)[flow] else 0
  {
    MirrorByBucket(g, flow);
    FilterCount(Bucket(g.upstream, flow.destination), (f: Flow) => (f.source, flow.destination) in tree, flow);
  }

  lemma VisibleOutCount(g: Graph, root: NodeId, tree: Tree, flow: Flow)
    requires Sound(g)
    ensures multiset(VisibleOut(g, root, tree, flow.source))[flow]
         == if flow.source == root || (flow.source, flow.destination) in tree then Flows(g)[flow] else 0
  {
    MirrorByBucket(g, flow);
    FilterCount(Bucket(g.downstream, flow.source), (f: Flow) => (flow.source, f.destination) in tree, flow);
  }

  lemma TreeEdgeFacts(edges: Tree, root: NodeId, visited: set<NodeId>, tree: Tree, u: NodeId, v: NodeId)
    requires SpanningTree(edges, root, visited, tree)
    ensures (u, v) in tree ==> u in visited && v in visited && v != root
  {
    if (u, v) in tree {
      assert (u, v).0 in visited && (u, v).1 in visited && (u, v).1 != root;
    }
  }

  /** How often a flow is listed on either side of a subgraph. */
  lemma ShownCounts(g: Graph, root: NodeId, visited: set<NodeId>, tree: Tree, r: SubgraphResult, flow: Flow)
    requires Sound(g) && root in visited
    requires SpanningTree(Calls(g.downstream), root, visited, tree) && Shows(g, root, visited, tree, r)
    ensures multiset(Bucket(r.upstream, flow.destination))[flow]
         == if flow.destination == root || (flow.source, flow.destination) in tree then Flows(g)[flow] else 0
    ensures multiset(Bucket(r.downstream, flow.source))[flow]
         == if flow.source == root || (flow.source, flow.destination) in tree then Flows(g)[flow] else 0
  {
    VisibleInCount(g, root, tree, flow);
    VisibleOutCount(g, root, tree, flow);
    TreeEdgeFacts(Calls(g.downstream), root, visited, tree, flow.source, flow.destination);
  }

  lemma RootCalleeInTree(g: Graph, root: NodeId, depth: nat, tree: Tree, flow: Flow)
    requires Sound(g) && flow in Flows(g) && flow.source == root && flow.destination != root
    requires SpanningTree(Calls(g.downstream), root, Ball(Calls(g.downstream), root, depth), tree)
    ensures (root, flow.destination) in tree <==> depth >= 1
  {
    assert (root, flow.destination) in Pairs(g);
    CallsOfSound(g, root, flow.destination);
    if depth >= 1 {
      RootIsParent(Calls(g.downstream), root, depth, tree, flow.destination);
    } else {
      TreeEdgeFacts(Calls(g.downstream), root, {root}, tree, root, flow.destination);
    }
  }

  /** The two indexes of a subgraph mirror each other on a flow of the graph
      exactly when it does not enter the root from another service and, at
      depth 0, does not leave it. */
  lemma SubgraphMirror(g: Graph, root: NodeId, depth: nat, r: SubgraphResult, flow: Flow)
    requires Sound(g) && root in g.nodes && IsSubgraph(g, root, depth, r) && flow in Flows(g)
    ensures MirroredIn(r, flow)
       <==> && (flow.destination == root ==> flow.source == root)
            && (flow.source == root && depth == 0 ==> flow.destination == root)
  {
    var edges, visited := Calls(g.downstream), Ball(Calls(g.downstream), root, depth);
    var tree :| SpanningTree(edges, root, visited, tree) && Shows(g, root, visited, tree, r);
    BallMonotone(edges, root, 0, depth);
    ShownCounts(g, root, visited, tree, r, flow);
    if flow.source == root && flow.destination != root {
      RootCalleeInTree(g, root, depth, tree, flow);
    }
    TreeEdgeFacts(edges, root, visited, tree, flow.source, flow.destination);
  }

  ghost predicate ListsFlow(r: SubgraphResult, id: NodeId, flow: Flow) {
    flow in Bucket(r.upstream, id) || flow in Bucket(r.downstream, id)
  }

  /** Both endpoints of every flow shown are among the nodes shown. */
  ghost predicate NothingDangles(r: SubgraphResult) {
    forall id, flow :: ListsFlow(r, id, flow) ==> flow.source in r.nodes && flow.destination in r.nodes
  }

  lemma {:induction false} FilterMember<T>(s: seq<T>, keep: T -> bool, x: T)
    ensures x in Filter(s, keep) <==> x in s && keep(x)
  {
    if s != [] {
      FilterMember(s[1..], keep, x);
      assert s == [s[0]] + s[1..];
    }
  }

  /** A flow shown is listed by its own endpoints, and is a tree flow or a flow
      of the root. */
  lemma ShownFlow(g: Graph, root: NodeId, visited: set<NodeId>, tree: Tree, r: SubgraphResult, id: NodeId, flow: Flow)
    requires Sound(g) && Shows(g, root, visited, tree, r)
    requires ListsFlow(r, id, flow)
    ensures || (flow.source, flow.destination) in tree
            || (flow.destination == root && flow in Bucket(g.upstream, root))
            || (flow.source == root && flow in Bucket(g.downstream, root))
  {
    if id != root {
      FilterMember(Bucket(g.upstream, id), (f: Flow) => (f.source, id) in tree, flow);
      FilterMember(Bucket(g.downstream, id), (f: Flow) => (id, f.destination) in tree, flow);
    }
  }

  /** Every callee of the root is the root itself or one of its callers. */
  ghost predicate CalleesCall(g: Graph, root: NodeId) {
    forall flow :: flow in Bucket(g.downstream, root) ==>
      flow.destination == root || flow.destination in Callers(g, root)
  }

  lemma ShownEndpoints(g: Graph, root: NodeId, depth: nat, tree: Tree, r: SubgraphResult, id: NodeId, flow: Flow)
    requires Sound(g) && (depth >= 1 || CalleesCall(g, root))
    requires SpanningTree(Calls(g.downstream), root, Ball(Calls(g.downstream), root, depth), tree)
    requires Shows(g, root, Ball(Calls(g.downstream), root, depth), tree, r)
    requires ListsFlow(r, id, flow)
    ensures flow.source in r.nodes && flow.destination in r.nodes
  {
    var edges, visited := Calls(g.downstream), Ball(Calls(g.downstream), root, depth);
    assert root in visited by { BallMonotone(edges, root, 0, depth); }
    ShownFlow(g, root, visited, tree, r, id, flow);
    if (flow.source, flow.destination) in tree {
      TreeEdgeFacts(edges, root, visited, tree, flow.source, flow.destination);
    } else if flow.destination == root && flow in Bucket(g.upstream, root) {
      assert flow.source in Callers(g, root);
    } else if depth >= 1 {
      BallStep(edges, root, root, flow.destination, 0);
      BallMonotone(edges, root, 1, depth);
    }
  }

  lemma EverythingShown(g: Graph, root: NodeId, depth: nat, tree: Tree, r: SubgraphResult)
    requires Sound(g) && (depth >= 1 || CalleesCall(g, root))
    requires SpanningTree(Calls(g.downstream), root, Ball(Calls(g.downstream), root, depth), tree)
    requires Shows(g, root, Ball(Calls(g.downstream), root, depth), tree, r)
    ensures NothingDangles(r)
  {
    forall id, flow | ListsFlow(r, id, flow) ensures flow.source in r.nodes && flow.destination in r.nodes {
      ShownEndpoints(g, root, depth, tree, r, id, flow);
    }
  }

  lemma CalleesShown(g: Graph, root: NodeId, tree: Tree, r: SubgraphResult)
    requires Shows(g, root, {root}, tree, r) && NothingDangles(r)
    ensures CalleesCall(g, root)
  {
    forall flow | flow in Bucket(g.downstream, root)
      ensures flow.destination == root || flow.destination in Callers(g, root)
    {
      assert ListsFlow(r, root, flow);
    }
  }

  /** From depth 1 on no flow dangles; at depth 0 that takes every callee of
      the root to be the root itself or one of its callers. */
  lemma SubgraphDangling(g: Graph, root: NodeId, depth: nat, r: SubgraphResult)
    requires Sound(g) && root in g.nodes && IsSubgraph(g, root, depth, r)
    ensures NothingDangles(r) <==> depth >= 1 || CalleesCall(g, root)
  {
    var visited := Ball(Calls(g.downstream), root, depth);
    var tree :| SpanningTree(Calls(g.downstream), root, visited, tree) && Shows(g, root, visited, tree, r);
    if depth >= 1 || CalleesCall(g, root) {
      EverythingShown(g, root, depth, tree, r);
    } else if NothingDangles(r) {
      CalleesShown(g, root, tree, r);
    }
  }

  lemma SaturatedBall(g: Graph, root: NodeId, depth: nat, v: NodeId)
    requires Sound(g) && root in g.nodes && |g.nodes| <= depth + 1
    ensures v in Ball(Calls(g.downstream), root, depth) <==> Reachable(Calls(g.downstream), root, v)
  {
    var edges := Calls(g.downstream);
    forall e | e in edges ensures e.1 in g.nodes.Keys {
      assert e == (e.0, e.1);
      CallsOfSound(g, e.0, e.1);
      var flow :| flow in Flows(g) && (flow.source, flow.destination) == (e.0, e.1);
    }
    assert |g.nodes.Keys| == |g.nodes|;
    Saturation(edges, root, g.nodes.Keys, depth, v);
  }

  /** On a sound graph of `n` nodes, any depth of at least `n - 1` returns
      everything reachable from the root and its callers, so that all such
      depths return the same nodes. */
  lemma SubgraphSaturates(g: Graph, root: NodeId, depth: nat, r: SubgraphResult, v: NodeId)
    requires Sound(g) && root in g.nodes && |g.nodes| <= depth + 1 && IsSubgraph(g, root, depth, r)
    ensures v in r.nodes <==> Reachable(Calls(g.downstream), root, v) || v in Callers(g, root)
  {
    SaturatedBall(g, root, depth, v);
  }

  /** A deeper subgraph returns at least the nodes of a shallower one. */
  lemma SubgraphMonotone(g: Graph, root: NodeId, shallow: nat, deep: nat, r: SubgraphResult, r': SubgraphResult)
    requires shallow <= deep && IsSubgraph(g, root, shallow, r) && IsSubgraph(g, root, deep, r')
    ensures r.nodes <= r'.nodes
  {
    BallMonotone(Calls(g.downstream), root, shallow, deep);
  }
}
