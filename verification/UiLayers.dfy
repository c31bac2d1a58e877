/** The web UI's layering: a queue-based breadth-first search over the downstream
    connections, from the chosen root. */
module UiLayers {
  import opened Paths

  datatype Kind = Upstream | Downstream

  datatype Connection = Connection(source: string, target: string, kind: Kind)

  /** The pairs joined by connections of one kind. */
  ghost function Links(connections: seq<Connection>, kind: Kind): (r: set<(string, string)>)
    ensures forall s, t :: (s, t) in r <==> Connection(s, t, kind) in connections
  {
    var r := set c | c in connections && c.kind == kind :: (c.source, c.target);
    assert forall s, t :: Connection(s, t, kind) in connections ==> (Connection(s, t, kind).source, t) in r;
    r
  }

  ghost predicate Distinct<T>(s: seq<T>) {
    forall i, j :: 0 <= i < j < |s| ==> s[i] != s[j]
  }

  /** The targets reached from `node` by the first `n` connections. */
  ghost function Targets(connections: seq<Connection>, node: string, n: nat): set<string>
    requires n <= |connections|
  {
    set c | c in connections[..n] && c.source == node && c.kind == Downstream :: c.target
  }

  ghost predicate Extended(layers: map<string, nat>, layers': map<string, nat>, gained: set<string>, layer: nat) {
    && layers'.Keys == layers.Keys + gained
    && (forall v :: v in layers ==> layers'[v] == layers[v])
    && (forall v :: v in gained ==> layers'[v] == layer)
  }

  lemma TargetsNext(connections: seq<Connection>, node: string, n: nat)
    requires n < |connections|
    ensures Targets(connections, node, n + 1) == Targets(connections, node, n)
              + if connections[n].source == node && connections[n].kind == Downstream then {connections[n].target}
                else {}
  {
    assert connections[..n + 1] == connections[..n] + [connections[n]];
  }

  /** Follows the connections of one node: unlayered targets join the queue. */
  method Visit(connections: seq<Connection>, node: string, layer: nat, before: map<string, nat>, ghost all: set<string>)
    returns (layers: map<string, nat>, found: seq<string>)
    requires all == Targets(connections, node, |connections|)
    ensures Extended(before, layers, all - before.Keys, layer)
    ensures Elements(found) == all - before.Keys && Distinct(found)
  {
    layers, found := before, [];
    for i := 0 to |connections|
      invariant Extended(before, layers, Targets(connections, node, i) - before.Keys, layer)
      invariant Elements(found) == Targets(connections, node, i) - before.Keys && Distinct(found)
    {
      var c := connections[i];
      TargetsNext(connections, node, i);
      if c.source == node && c.kind == Downstream && c.target !in layers {
        layers := layers[c.target := layer];
        assert c.target !in Elements(found);
        found := found + [c.target];
      }
    }
  }

  ghost predicate Exact(edges: set<(string, string)>, root: string, layers: map<string, nat>) {
    forall v :: v in layers ==> AtDistance(edges, root, v, layers[v])
  }

  ghost predicate Expanded(edges: set<(string, string)>, layers: map<string, nat>, done: set<string>) {
    forall u, v :: u in done && (u, v) in edges ==> v in layers
  }

  /** The queue holds the layered nodes not yet expanded, each once, in order of
      their layers, at most one apart. */
  ghost predicate Queued(layers: map<string, nat>, done: set<string>, queue: seq<string>) {
    && layers.Keys == done + Elements(queue) && done !! Elements(queue) && Distinct(queue)
    && Ordered(layers, queue)
    && (forall v :: v in queue ==> v in layers && layers[v] <= layers[queue[0]] + 1)
  }

  ghost predicate Ordered(layers: map<string, nat>, queue: seq<string>) {
    && (forall i :: 0 <= i < |queue| ==> queue[i] in layers)
    && (forall i, j :: 0 <= i < j < |queue| ==> layers[queue[i]] <= layers[queue[j]])
  }

  /** The search state once the `done` nodes have been expanded. */
  ghost predicate Searching(edges: set<(string, string)>, root: string, layers: map<string, nat>, done: set<string>,
                            queue: seq<string>) {
    && root in layers && Exact(edges, root, layers) && Expanded(edges, layers, done) && Queued(layers, done, queue)
    && (queue != [] ==> Ball(edges, root, layers[queue[0]]) <= layers.Keys)
  }

  ghost predicate DoneUpTo(layers: map<string, nat>, done: set<string>, k: nat) {
    forall v :: v in layers && layers[v] <= k ==> v in done
  }

  /** Once every node of layer `k` or less is expanded, all of the next ball is
      layered. */
  lemma NextBallLayered(edges: set<(string, string)>, root: string, layers: map<string, nat>, done: set<string>, k: nat)
    requires Ball(edges, root, k) <= layers.Keys
    requires Exact(edges, root, layers) && Expanded(edges, layers, done)
    requires DoneUpTo(layers, done, k)
    ensures Ball(edges, root, k + 1) <= layers.Keys
  {
    forall v | v in Ball(edges, root, k + 1) ensures v in layers.Keys {
      if v !in Ball(edges, root, k) {
        var u :| u in Ball(edges, root, k) && (u, v) in edges;
        DistanceBound(edges, root, u, layers[u], k);
      }
    }
  }

  lemma ExactExtended(edges: set<(string, string)>, root: string, layers: map<string, nat>, layers': map<string, nat>,
                      node: string, gained: set<string>)
    requires node in layers && Extended(layers, layers', gained, layers[node] + 1) && Exact(edges, root, layers)
    requires forall v :: v in gained ==> (node, v) in edges && v !in layers
    requires Ball(edges, root, layers[node]) <= layers.Keys
    ensures Exact(edges, root, layers')
  {
    forall v | v in gained ensures AtDistance(edges, root, v, layers'[v]) {
      BallStep(edges, root, node, v, layers[node]);
    }
  }

  lemma OrderedExtended(layers: map<string, nat>, layers': map<string, nat>, queue: seq<string>, found: seq<string>,
                        gained: set<string>)
    requires queue != [] && Ordered(layers, queue) && Distinct(queue)
    requires forall v :: v in queue ==> layers[v] <= layers[queue[0]] + 1
    requires Extended(layers, layers', gained, layers[queue[0]] + 1)
    requires Elements(found) == gained && gained !! layers.Keys && Distinct(found)
    ensures var next := queue[1..] + found;
            && Distinct(next) && Ordered(layers', next)
            && (forall v :: v in next ==> layers[queue[0]] <= layers'[v] <= layers[queue[0]] + 1)
  {
    var next := queue[1..] + found;
    forall i | 0 <= i < |next|
      ensures next[i] in layers' && layers[queue[0]] <= layers'[next[i]] <= layers[queue[0]] + 1
    {
      if i < |queue| - 1 {
        assert next[i] == queue[i + 1];
      } else {
        assert next[i] == found[i - (|queue| - 1)];
        assert next[i] in Elements(found);
      }
    }
    forall i, j | 0 <= i < j < |next| ensures next[i] != next[j] && layers'[next[i]] <= layers'[next[j]] {
      if j < |queue| - 1 {
        assert next[i] == queue[i + 1] && next[j] == queue[j + 1];
      } else {
        assert next[j] == found[j - (|queue| - 1)] && next[j] in Elements(found);
        if i < |queue| - 1 {
          assert next[i] == queue[i + 1];
        } else {
          assert next[i] == found[i - (|queue| - 1)] && next[i] in Elements(found);
        }
      }
    }
  }

  lemma QueuedStep(layers: map<string, nat>, layers': map<string, nat>, done: set<string>, queue: seq<string>,
                   found: seq<string>, gained: set<string>)
    requires Queued(layers, done, queue) && queue != []
    requires Extended(layers, layers', gained, layers[queue[0]] + 1)
    requires Elements(found) == gained && gained !! layers.Keys && Distinct(found)
    ensures var next := queue[1..] + found;
            && Queued(layers', done + {queue[0]}, next)
            && (next != [] ==> layers[queue[0]] <= layers'[next[0]] <= layers[queue[0]] + 1)
  {
    var next := queue[1..] + found;
    OrderedExtended(layers, layers', queue, found, gained);
    assert queue == [queue[0]] + queue[1..];
    assert Elements(queue) == {queue[0]} + Elements(queue[1..]);
    assert Elements(next) == Elements(queue[1..]) + gained;
    assert queue[0] !in queue[1..];
    assert next != [] ==> next[0] in next;
  }

  lemma LowLayersDone(layers: map<string, nat>, done: set<string>, next: seq<string>, k: nat)
    requires next != [] && layers.Keys == done + Elements(next) && Ordered(layers, next) && layers[next[0]] > k
    ensures DoneUpTo(layers, done, k)
  {
    forall v | v in next ensures layers[v] > k {
      var i :| 0 <= i < |next| && next[i] == v;
      assert i > 0 ==> layers[next[0]] <= layers[next[i]];
    }
  }

  lemma NextHeadBall(edges: set<(string, string)>, root: string, layers: map<string, nat>, done: set<string>,
                     next: seq<string>, k: nat)
    requires next != [] && Queued(layers, done, next) && k <= layers[next[0]] <= k + 1
    requires Ball(edges, root, k) <= layers.Keys
    requires DoneUpTo(layers, done, k) ==> Ball(edges, root, k + 1) <= layers.Keys
    ensures Ball(edges, root, layers[next[0]]) <= layers.Keys
  {
    if layers[next[0]] > k {
      LowLayersDone(layers, done, next, k);
    }
  }

  lemma ExpandedStep(edges: set<(string, string)>, layers: map<string, nat>, layers': map<string, nat>,
                     done: set<string>, node: string)
    requires Expanded(edges, layers, done) && layers'.Keys == layers.Keys + (Out(edges, {node}) - layers.Keys)
    ensures Expanded(edges, layers', done + {node})
  {
    forall u, v | u in done + {node} && (u, v) in edges ensures v in layers' {
      if u == node {
        assert v in Out(edges, {node});
      }
    }
  }

  /** Expanding the head of the queue keeps the search state. */
  lemma SearchStep(edges: set<(string, string)>, root: string, layers: map<string, nat>, done: set<string>,
                   queue: seq<string>, layers': map<string, nat>, found: seq<string>, gained: set<string>)
    requires Searching(edges, root, layers, done, queue) && queue != []
    requires gained == Out(edges, {queue[0]}) - layers.Keys
    requires Extended(layers, layers', gained, layers[queue[0]] + 1)
    requires Elements(found) == gained && Distinct(found)
    ensures Searching(edges, root, layers', done + {queue[0]}, queue[1..] + found)
  {
    var node, k, next, done' := queue[0], layers[queue[0]], queue[1..] + found, done + {queue[0]};
    ExactExtended(edges, root, layers, layers', node, gained);
    QueuedStep(layers, layers', done, queue, found, gained);
    ExpandedStep(edges, layers, layers', done, node);
    if DoneUpTo(layers', done', k) {
      NextBallLayered(edges, root, layers', done', k);
    }
    if next != [] {
      NextHeadBall(edges, root, layers', done', next, k);
    }
  }

  lemma {:induction false} ReachedLayered(edges: set<(string, string)>, root: string, layered: set<string>, v: string,
                                          hops: nat)
    requires root in layered && forall u, w :: u in layered && (u, w) in edges ==> w in layered
    requires v in Ball(edges, root, hops)
    ensures v in layered
    decreases hops
  {
    if hops > 0 {
      if v in Ball(edges, root, hops - 1) {
        ReachedLayered(edges, root, layered, v, hops - 1);
      } else {
        var u :| u in Ball(edges, root, hops - 1) && (u, v) in edges;
        ReachedLayered(edges, root, layered, u, hops - 1);
      }
    }
  }

  lemma SearchDone(edges: set<(string, string)>, root: string, layers: map<string, nat>, done: set<string>, v: string)
    requires Searching(edges, root, layers, done, [])
    ensures v in layers <==> Reachable(edges, root, v)
  {
    if v in layers {
      assert v in Ball(edges, root, layers[v]);
    }
    if Reachable(edges, root, v) {
      var hops: nat :| v in Ball(edges, root, hops);
      ReachedLayered(edges, root, layers.Keys, v, hops);
    }
  }

  lemma SearchStart(edges: set<(string, string)>, root: string)
    ensures Searching(edges, root, map[root := 0], {}, [root])
  {
    assert Elements([root]) == {root};
  }

  ghost function Universe(edges: set<(string, string)>, root: string): set<string> {
    {root} + set e | e in edges :: e.1
  }

  lemma StaysInside(edges: set<(string, string)>, root: string, node: string, layers: map<string, nat>,
                    layers': map<string, nat>, k: nat)
    requires layers.Keys <= Universe(edges, root) && Extended(layers, layers', Out(edges, {node}) - layers.Keys, k)
    ensures layers'.Keys <= Universe(edges, root)
  {
    assert forall v :: v in Out(edges, {node}) ==> (node, v).1 in Universe(edges, root);
  }

  lemma TargetsAreOut(connections: seq<Connection>, node: string)
    ensures Targets(connections, node, |connections|) == Out(Links(connections, Downstream), {node})
  {
    assert connections[..|connections|] == connections;
    var edges := Links(connections, Downstream);
    forall t | t in Targets(connections, node, |connections|) ensures t in Out(edges, {node}) {
      assert Connection(node, t, Downstream) in connections;
      assert (node, t) in edges;
    }
    forall t | t in Out(edges, {node}) ensures t in Targets(connections, node, |connections|) {
      assert (node, t) in edges;
      assert Connection(node, t, Downstream) in connections;
    }
  }

  /** Layers are exact downstream distances: a node is layered exactly when it
      is reachable from the root, and each is enqueued exactly once. */
  method AssignLayers(connections: seq<Connection>, root: string)
    returns (layers: map<string, nat>, visits: seq<string>)
    ensures forall v :: v in layers <==> Reachable(Links(connections, Downstream), root, v)
    ensures forall v :: v in layers ==> AtDistance(Links(connections, Downstream), root, v, layers[v])
    ensures Distinct(visits) && Elements(visits) == layers.Keys
  {
    ghost var edges := Links(connections, Downstream);
    SearchStart(edges, root);
    layers, visits := map[root := 0], [];
    var queue := [root];
    ghost var done := {};
    while queue != []
      invariant Searching(edges, root, layers, done, queue)
      invariant Distinct(visits) && Elements(visits) == done
      invariant layers.Keys <= Universe(edges, root)
      decreases Universe(edges, root) - done
    {
      var current := queue[0];
      TargetsAreOut(connections, current);
      assert current in Elements(queue);
      ghost var was := layers;
      var found;
      layers, found := Visit(connections, current, layers[current] + 1, layers, Out(edges, {current}));
      SearchStep(edges, root, was, done, queue, layers, found, Out(edges, {current}) - was.Keys);
      StaysInside(edges, root, current, was, layers, was[current] + 1);
      visits, queue := Enqueued(visits, current, done), queue[1..] + found;
      done := done + {current};
    }
    forall v ensures v in layers <==> Reachable(edges, root, v) {
      SearchDone(edges, root, layers, done, v);
    }
  }

  function Enqueued(visits: seq<string>, node: string, ghost done: set<string>): (r: seq<string>)
    requires Distinct(visits) && Elements(visits) == done && node !in done
    ensures Distinct(r) && Elements(r) == done + {node}
  {
    assert forall i :: 0 <= i < |visits| ==> visits[i] in Elements(visits);
    visits + [node]
  }
}
