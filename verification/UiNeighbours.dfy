/** The neighbourhood the web UI highlights: a level-by-level search that
    follows connections in both directions. */
module UiNeighbours {
  import opened Hosts
  import opened Paths
  import opened UiLayers

  /** The node a connection leads to from `id`; an empty id leads nowhere. */
  function Neighbour(c: Connection, id: string): Option<string> {
    var other := if c.source == id then c.target else c.source;
    if (c.source == id || c.target == id) && other != "" then Some(other) else None
  }

  /** The nodes next to `id` by the first `n` connections. */
  ghost function Next(connections: seq<Connection>, id: string, n: nat): set<string>
    requires n <= |connections|
  {
    if n == 0 then {}
    else Next(connections, id, n - 1) + match Neighbour(connections[n - 1], id) case Some(v) => {v} case None => {}
  }

  /** Connections taken both ways, of either kind; nothing leads to an empty id. */
  ghost function BothWays(connections: seq<Connection>): set<(string, string)> {
    (set c | c in connections && c.target != "" :: (c.source, c.target))
    + (set c | c in connections && c.source != "" :: (c.target, c.source))
  }

  lemma NeighbourLinked(connections: seq<Connection>, c: Connection, id: string)
    requires c in connections && Neighbour(c, id).Some?
    ensures (id, Neighbour(c, id).value) in BothWays(connections)
  {
    if c.source == id {
      assert (c.source, c.target) in set c | c in connections && c.target != "" :: (c.source, c.target);
    } else {
      assert (c.target, c.source) in set c | c in connections && c.source != "" :: (c.target, c.source);
    }
  }

  lemma LinkHasNeighbour(connections: seq<Connection>, id: string, v: string) returns (i: nat)
    requires (id, v) in BothWays(connections)
    ensures i < |connections| && Neighbour(connections[i], id) == Some(v)
  {
    var c: Connection;
    if (id, v) in set c | c in connections && c.target != "" :: (c.source, c.target) {
      c :| c in connections && c.target != "" && (c.source, c.target) == (id, v);
    } else {
      c :| c in connections && c.source != "" && (c.target, c.source) == (id, v);
    }
    i :| 0 <= i < |connections| && connections[i] == c;
  }

  lemma {:induction false} NextMember(connections: seq<Connection>, id: string, n: nat, v: string)
    requires n <= |connections|
    ensures v in Next(connections, id, n) <==> exists i :: 0 <= i < n && Neighbour(connections[i], id) == Some(v)
  {
    if n > 0 {
      NextMember(connections, id, n - 1, v);
    }
  }

  lemma NextIsOut(connections: seq<Connection>, id: string)
    ensures Next(connections, id, |connections|) == Out(BothWays(connections), {id})
  {
    forall v ensures v in Next(connections, id, |connections|) <==> v in Out(BothWays(connections), {id}) {
      NextMember(connections, id, |connections|, v);
      if v in Next(connections, id, |connections|) {
        var i :| 0 <= i < |connections| && Neighbour(connections[i], id) == Some(v);
        NeighbourLinked(connections, connections[i], id);
      }
      if v in Out(BothWays(connections), {id}) {
        assert (id, v) in BothWays(connections);
        var i := LinkHasNeighbour(connections, id, v);
      }
    }
  }

  /** Follows the connections of one node. */
  method Follow(connections: seq<Connection>, id: string, seen: set<string>)
    returns (visited: set<string>, found: seq<string>)
    ensures visited == seen + Out(BothWays(connections), {id})
    ensures Elements(found) == visited - seen
  {
    visited, found := seen, [];
    for i := 0 to |connections|
      invariant visited == seen + Next(connections, id, i)
      invariant Elements(found) == visited - seen
    {
      var neighbour := Neighbour(connections[i], id);
      if neighbour.Some? && neighbour.value !in visited {
        ElementsConcat(found, [neighbour.value]);
        visited, found := visited + {neighbour.value}, found + [neighbour.value];
      }
    }
    NextIsOut(connections, id);
  }

  lemma OutOfNext(edges: set<(string, string)>, frontier: seq<string>, i: nat)
    requires i < |frontier|
    ensures Out(edges, Elements(frontier[..i + 1])) == Out(edges, Elements(frontier[..i])) + Out(edges, {frontier[i]})
  {
    assert frontier[..i + 1] == frontier[..i] + [frontier[i]];
    ElementsConcat(frontier[..i], [frontier[i]]);
    assert Elements([frontier[i]]) == {frontier[i]};
    OutUnion(edges, Elements(frontier[..i]), {frontier[i]});
  }

  method FollowAll(connections: seq<Connection>, frontier: seq<string>, seen: set<string>)
    returns (visited: set<string>, next: seq<string>)
    ensures visited == seen + Out(BothWays(connections), Elements(frontier))
    ensures Elements(next) == visited - seen
  {
    ghost var edges := BothWays(connections);
    visited, next := seen, [];
    for i := 0 to |frontier|
      invariant visited == seen + Out(edges, Elements(frontier[..i]))
      invariant Elements(next) == visited - seen
    {
      OutOfNext(edges, frontier, i);
      ghost var was := visited;
      var found;
      visited, found := Follow(connections, frontier[i], visited);
      Accumulated(seen, Out(edges, Elements(frontier[..i])), Out(edges, {frontier[i]}), was, next, visited, found);
      next := next + found;
    }
    assert frontier[..|frontier|] == frontier;
  }

  /** The ids around a node: those within `depth` connections of it, in either
      direction; without a bound (an infinite depth), all that are connected to
      it at any distance. */
  method ConnectedNodeIds(id: string, connections: seq<Connection>, depth: Option<nat>) returns (visited: set<string>)
    ensures depth.Some? ==> visited == Ball(BothWays(connections), id, depth.value)
    ensures depth.None? ==> forall v :: v in visited <==> Reachable(BothWays(connections), id, v)
  {
    ghost var edges := BothWays(connections);
    visited := {id};
    var frontier, hops := [id], 0;
    while (depth.None? || hops < depth.value) && frontier != []
      invariant depth.Some? ==> hops <= depth.value
      invariant visited == Ball(edges, id, hops)
      invariant forall v :: v in Elements(frontier) <==> AtDistance(edges, id, v, hops)
      decreases |Universe(edges, id)| - |visited|, |frontier|
    {
      ghost var level, was := Elements(frontier), visited;
      visited, frontier := FollowAll(connections, frontier, visited);
      LevelIsBall(edges, id, level, hops, visited);
      Shrinks(edges, id, hops, frontier);
      hops := hops + 1;
    }
    if frontier == [] {
      Complete(edges, id, hops);
      if depth.Some? {
        BallFixed(edges, id, hops, depth.value);
      }
    }
  }

  /** A level that finds something new leaves less to be found. */
  lemma Shrinks(edges: set<(string, string)>, id: string, hops: nat, next: seq<string>)
    requires Elements(next) == Ball(edges, id, hops + 1) - Ball(edges, id, hops)
    ensures |Ball(edges, id, hops)| <= |Ball(edges, id, hops + 1)| <= |Universe(edges, id)|
    ensures next != [] ==> |Ball(edges, id, hops)| < |Ball(edges, id, hops + 1)|
  {
    BallMonotone(edges, id, hops, hops + 1);
    BallInside(edges, id, Universe(edges, id), hops + 1);
    SubsetSize(Ball(edges, id, hops + 1), Universe(edges, id));
    SubsetSize(Ball(edges, id, hops), Ball(edges, id, hops + 1));
    if next != [] {
      assert next[0] in Elements(next);
    }
  }

  lemma Complete(edges: set<(string, string)>, id: string, hops: nat)
    requires forall v :: !AtDistance(edges, id, v, hops)
    ensures Ball(edges, id, hops) == Ball(edges, id, hops + 1)
    ensures forall v :: v in Ball(edges, id, hops) <==> Reachable(edges, id, v)
  {
    FrontierSuffices(edges, id, {}, hops);
    SaturatedIffFixed(edges, id, hops);
  }

  lemma BallSymmetric(connections: seq<Connection>, a: string, b: string, hops: nat)
    requires a != "" && b in Ball(BothWays(connections), a, hops)
    ensures a in Ball(BothWays(connections), b, hops)
  {
    var edges := BothWays(connections);
    BallIsReach(edges, a, b, hops);
    var walk: seq<string> :| WalkBetween(edges, a, b, walk) && |walk| <= hops + 1;
    var back := WalkBack(connections, walk);
    BallIsReach(edges, b, a, hops);
  }

  lemma WalkBack(connections: seq<Connection>, walk: seq<string>) returns (back: seq<string>)
    requires IsWalk(BothWays(connections), walk) && walk[0] != ""
    ensures IsWalk(BothWays(connections), back) && |back| == |walk|
    ensures back[0] == walk[|walk| - 1] && back[|back| - 1] == walk[0]
  {
    var n := |walk|;
    back := seq(n, i requires 0 <= i < n => walk[n - 1 - i]);
    forall i | 0 <= i < n - 1 ensures (back[i], back[i + 1]) in BothWays(connections) {
      var k := n - 2 - i;
      assert (walk[k], walk[k + 1]) in BothWays(connections);
      if k > 0 {
        assert (walk[k - 1], walk[k - 1 + 1]) in BothWays(connections);
      }
      Reversible(connections, walk[k], walk[k + 1]);
    }
  }

  lemma Reversible(connections: seq<Connection>, u: string, v: string)
    requires (u, v) in BothWays(connections) && u != ""
    ensures (v, u) in BothWays(connections)
  {
    var i := LinkHasNeighbour(connections, u, v);
    NeighbourLinked(connections, connections[i], v);
  }
}
