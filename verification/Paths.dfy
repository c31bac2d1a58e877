/** Reachability in a finite directed graph, given by its set of edges.

    `Reaches` is the definition by walks; `Ball` is the definition by levels.
    The breadth-first searches of the core and of the web UI are both proved
    against `Ball`, and `BallIsReach` ties it to walks. */
module Paths {

  ghost predicate IsWalk<V>(edges: set<(V, V)>, walk: seq<V>) {
    && |walk| > 0
    && forall i :: 0 <= i < |walk| - 1 ==> (walk[i], walk[i + 1]) in edges
  }

  ghost predicate WalkBetween<V>(edges: set<(V, V)>, start: V, end: V, walk: seq<V>) {
    IsWalk(edges, walk) && walk[0] == start && walk[|walk| - 1] == end
  }

  /** Some walk of at most `hops` edges leads from `start` to `end`. */
  ghost predicate Reaches<V(!new)>(edges: set<(V, V)>, start: V, end: V, hops: nat) {
    exists walk: seq<V> :: WalkBetween(edges, start, end, walk) && |walk| <= hops + 1
  }

  /** The targets of the edges that leave `sources`. */
  ghost function Out<V(!new)>(edges: set<(V, V)>, sources: set<V>): (r: set<V>)
    ensures forall v :: v in r <==> exists u :: u in sources && (u, v) in edges
  {
    var r := set e | e in edges && e.0 in sources :: e.1;
    assert forall u, v :: u in sources && (u, v) in edges ==> (u, v).1 in r;
    r
  }

  /** The vertices within `hops` edges of `root`, level by level. */
  ghost function Ball<V(!new)>(edges: set<(V, V)>, root: V, hops: nat): set<V> {
    if hops == 0 then {root}
    else
      var inner := Ball(edges, root, hops - 1);
      inner + Out(edges, inner)
  }

  /** `v` is within `hops` edges of `root` and not nearer. */
  ghost predicate AtDistance<V(!new)>(edges: set<(V, V)>, root: V, v: V, hops: nat) {
    v in Ball(edges, root, hops) && (hops > 0 ==> v !in Ball(edges, root, hops - 1))
  }

  ghost predicate Reachable<V(!new)>(edges: set<(V, V)>, root: V, v: V) {
    exists hops: nat :: v in Ball(edges, root, hops)
  }

  lemma {:induction false} BallMonotone<V(!new)>(edges: set<(V, V)>, root: V, m: nat, n: nat)
    requires m <= n
    ensures Ball(edges, root, m) <= Ball(edges, root, n)
    decreases n
  {
    if m < n {
      BallMonotone(edges, root, m, n - 1);
    }
  }

  /** Levels and walks describe the same vertices. */
  lemma BallIsReach<V(!new)>(edges: set<(V, V)>, root: V, v: V, hops: nat)
    ensures v in Ball(edges, root, hops) <==> Reaches(edges, root, v, hops)
  {
    if v in Ball(edges, root, hops) {
      var walk := BallHasWalk(edges, root, v, hops);
    }
    if Reaches(edges, root, v, hops) {
      var walk: seq<V> :| WalkBetween(edges, root, v, walk) && |walk| <= hops + 1;
      WalkInBall(edges, root, v, walk);
      BallMonotone(edges, root, |walk| - 1, hops);
    }
  }

  lemma {:induction false} BallHasWalk<V(!new)>(edges: set<(V, V)>, root: V, v: V, hops: nat) returns (walk: seq<V>)
    requires v in Ball(edges, root, hops)
    ensures WalkBetween(edges, root, v, walk) && |walk| <= hops + 1
  {
    if hops == 0 {
      walk := [root];
    } else if v in Ball(edges, root, hops - 1) {
      walk := BallHasWalk(edges, root, v, hops - 1);
    } else {
      var u :| u in Ball(edges, root, hops - 1) && (u, v) in edges;
      var prefix := BallHasWalk(edges, root, u, hops - 1);
      walk := prefix + [v];
    }
  }

  lemma {:induction false} WalkInBall<V(!new)>(edges: set<(V, V)>, root: V, v: V, walk: seq<V>)
    requires WalkBetween(edges, root, v, walk)
    ensures v in Ball(edges, root, |walk| - 1)
  {
    if |walk| > 1 {
      var prefix := walk[..|walk| - 1];
      var u := prefix[|prefix| - 1];
      assert (walk[|walk| - 2], walk[|walk| - 1]) in edges;
      WalkInBall(edges, root, u, prefix);
    }
  }

  lemma BallStep<V(!new)>(edges: set<(V, V)>, root: V, u: V, v: V, hops: nat)
    requires u in Ball(edges, root, hops) && (u, v) in edges
    ensures v in Ball(edges, root, hops + 1)
  {
  }

  /** Distances are unique. */
  lemma DistanceUnique<V(!new)>(edges: set<(V, V)>, root: V, v: V, m: nat, n: nat)
    requires AtDistance(edges, root, v, m) && AtDistance(edges, root, v, n)
    ensures m == n
  {
    if m < n {
      BallMonotone(edges, root, m, n - 1);
    } else if n < m {
      BallMonotone(edges, root, n, m - 1);
    }
  }

  /** Membership in a ball is a bound on the distance. */
  lemma DistanceBound<V(!new)>(edges: set<(V, V)>, root: V, v: V, m: nat, hops: nat)
    requires AtDistance(edges, root, v, m)
    ensures v in Ball(edges, root, hops) <==> m <= hops
  {
    if m <= hops {
      BallMonotone(edges, root, m, hops);
    } else {
      BallMonotone(edges, root, hops, m - 1);
    }
  }

  lemma {:induction false} DistanceExists<V(!new)>(edges: set<(V, V)>, root: V, v: V, hops: nat) returns (m: nat)
    requires v in Ball(edges, root, hops)
    ensures m <= hops && AtDistance(edges, root, v, m)
  {
    if hops > 0 && v in Ball(edges, root, hops - 1) {
      m := DistanceExists(edges, root, v, hops - 1);
    } else {
      m := hops;
    }
  }

  /** A vertex at positive distance has a predecessor one hop nearer. */
  lemma NearerPredecessor<V(!new)>(edges: set<(V, V)>, root: V, v: V, hops: nat) returns (u: V)
    requires hops > 0 && AtDistance(edges, root, v, hops)
    ensures (u, v) in edges && AtDistance(edges, root, u, hops - 1)
  {
    u :| u in Ball(edges, root, hops - 1) && (u, v) in edges;
    if hops > 1 && u in Ball(edges, root, hops - 2) {
      assert false;
    }
  }

  lemma NextBall<V(!new)>(edges: set<(V, V)>, root: V, m: nat, n: nat)
    requires Ball(edges, root, m) == Ball(edges, root, n)
    ensures Ball(edges, root, m + 1) == Ball(edges, root, n + 1)
  {
  }

  /** Once a level adds nothing, no later level does. */
  lemma {:induction false} BallFixed<V(!new)>(edges: set<(V, V)>, root: V, m: nat, n: nat)
    requires m <= n && Ball(edges, root, m) == Ball(edges, root, m + 1)
    ensures Ball(edges, root, n) == Ball(edges, root, m)
    decreases n - m
  {
    if m < n {
      NextBall(edges, root, m, m + 1);
      BallFixed(edges, root, m + 1, n);
    }
  }

  /** A depth bound loses nothing exactly when one more hop adds nothing. */
  lemma SaturatedIffFixed<V(!new)>(edges: set<(V, V)>, root: V, hops: nat)
    ensures (forall v :: Reachable(edges, root, v) ==> v in Ball(edges, root, hops))
       <==> Ball(edges, root, hops + 1) == Ball(edges, root, hops)
  {
    if Ball(edges, root, hops + 1) == Ball(edges, root, hops) {
      forall v | Reachable(edges, root, v) ensures v in Ball(edges, root, hops) {
        var n: nat :| v in Ball(edges, root, n);
        if n <= hops {
          BallMonotone(edges, root, n, hops);
        } else {
          BallFixed(edges, root, hops, n);
        }
      }
    }
    if forall v :: Reachable(edges, root, v) ==> v in Ball(edges, root, hops) {
      BallMonotone(edges, root, hops, hops + 1);
      forall v | v in Ball(edges, root, hops + 1) ensures v in Ball(edges, root, hops) {
        assert Reachable(edges, root, v);
      }
    }
  }

  lemma {:induction false} BallInside<V(!new)>(edges: set<(V, V)>, root: V, vertices: set<V>, hops: nat)
    requires root in vertices
    requires forall e :: e in edges ==> e.1 in vertices
    ensures Ball(edges, root, hops) <= vertices
  {
    if hops > 0 {
      BallInside(edges, root, vertices, hops - 1);
    }
  }

  lemma SubsetSize<V>(small: set<V>, big: set<V>)
    requires small <= big
    ensures |small| <= |big|
    ensures |small| == |big| ==> small == big
  {
    assert big == small + (big - small);
    assert |big| == |small| + |big - small|;
  }

  lemma Gains<V(!new)>(edges: set<(V, V)>, root: V, hops: nat)
    requires Ball(edges, root, hops) != Ball(edges, root, hops + 1)
    ensures |Ball(edges, root, hops)| < |Ball(edges, root, hops + 1)|
  {
    BallMonotone(edges, root, hops, hops + 1);
    SubsetSize(Ball(edges, root, hops), Ball(edges, root, hops + 1));
  }

  /** Until it stops growing, a ball gains a vertex at every level. */
  ghost predicate Growing<V(!new)>(edges: set<(V, V)>, root: V, hops: nat) {
    Ball(edges, root, hops + 1) == Ball(edges, root, hops) || |Ball(edges, root, hops)| >= hops + 1
  }

  lemma GrowingNext<V(!new)>(edges: set<(V, V)>, root: V, hops: nat)
    requires Growing(edges, root, hops)
    ensures Growing(edges, root, hops + 1)
  {
    if Ball(edges, root, hops) == Ball(edges, root, hops + 1) {
      NextBall(edges, root, hops, hops + 1);
    } else {
      Gains(edges, root, hops);
    }
  }

  lemma {:induction false} BallGrows<V(!new)>(edges: set<(V, V)>, root: V, hops: nat)
    ensures Growing(edges, root, hops)
  {
    if hops == 0 {
      assert Ball(edges, root, 0) == {root};
    } else {
      BallGrows(edges, root, hops - 1);
      GrowingNext(edges, root, hops - 1);
    }
  }

  /** Pigeonhole: with `n` vertices, `n - 1` hops reach everything reachable. */
  lemma Saturation<V(!new)>(edges: set<(V, V)>, root: V, vertices: set<V>, hops: nat, v: V)
    requires root in vertices
    requires forall e :: e in edges ==> e.1 in vertices
    requires |vertices| <= hops + 1
    ensures v in Ball(edges, root, hops) <==> Reachable(edges, root, v)
  {
    if Ball(edges, root, hops) != Ball(edges, root, hops + 1) {
      BallGrows(edges, root, hops);
      BallInside(edges, root, vertices, hops);
      BallInside(edges, root, vertices, hops + 1);
      BallMonotone(edges, root, hops, hops + 1);
      SubsetSize(Ball(edges, root, hops), vertices);
      SubsetSize(Ball(edges, root, hops), Ball(edges, root, hops + 1));
      SubsetSize(Ball(edges, root, hops + 1), vertices);
      assert false;
    }
    SaturatedIffFixed(edges, root, hops);
  }

  /** `image` is `edges` with every vertex renamed by `f`, injectively. */
  ghost predicate Relabels<V(!new), W(!new)>(edges: set<(V, V)>, root: V, image: set<(W, W)>, f: V -> W,
                                             vertices: set<V>) {
    && root in vertices
    && (forall e :: e in edges ==> e.0 in vertices && e.1 in vertices)
    && (forall u, v :: u in vertices && v in vertices && f(u) == f(v) ==> u == v)
    && image == set e | e in edges :: (f(e.0), f(e.1))
  }

  lemma BallCase<V(!new)>(edges: set<(V, V)>, root: V, v: V, hops: nat) returns (u: V)
    requires v in Ball(edges, root, hops + 1)
    ensures u in Ball(edges, root, hops) && (u == v || (u, v) in edges)
  {
    if v in Ball(edges, root, hops) {
      u := v;
    } else {
      u :| u in Ball(edges, root, hops) && (u, v) in edges;
    }
  }

  lemma RelabelStep<V(!new), W(!new)>(edges: set<(V, V)>, root: V, image: set<(W, W)>, f: V -> W,
                                    vertices: set<V>, hops: nat, u: V, v: V)
    requires Relabels(edges, root, image, f, vertices)
    requires (u == v || (u, v) in edges) && f(u) in Ball(image, f(root), hops)
    ensures f(v) in Ball(image, f(root), hops + 1)
  {
    if u != v {
      assert (f((u, v).0), f((u, v).1)) in image;
      BallStep(image, f(root), f(u), f(v), hops);
    }
  }

  lemma {:induction false} RelabelForward<V(!new), W(!new)>(edges: set<(V, V)>, root: V, image: set<(W, W)>, f: V -> W,
                                                          vertices: set<V>, hops: nat, v: V)
    requires Relabels(edges, root, image, f, vertices)
    requires v in Ball(edges, root, hops)
    ensures f(v) in Ball(image, f(root), hops)
  {
    if hops > 0 {
      var u := BallCase(edges, root, v, hops - 1);
      RelabelForward(edges, root, image, f, vertices, hops - 1, u);
      RelabelStep(edges, root, image, f, vertices, hops - 1, u, v);
    }
  }

  lemma {:induction false} RelabelBackward<V(!new), W(!new)>(edges: set<(V, V)>, root: V, image: set<(W, W)>, f: V -> W,
                                                           vertices: set<V>, hops: nat, w: W) returns (v: V)
    requires Relabels(edges, root, image, f, vertices)
    requires w in Ball(image, f(root), hops)
    ensures v in vertices && f(v) == w && v in Ball(edges, root, hops)
  {
    if hops == 0 {
      v := root;
    } else if w in Ball(image, f(root), hops - 1) {
      v := RelabelBackward(edges, root, image, f, vertices, hops - 1, w);
    } else {
      var x :| x in Ball(image, f(root), hops - 1) && (x, w) in image;
      var u := RelabelBackward(edges, root, image, f, vertices, hops - 1, x);
      var e :| e in edges && (f(e.0), f(e.1)) == (x, w);
      assert e.0 == u;
      v := e.1;
      assert (u, v) == e;
    }
  }

  lemma BallRelabelled<V(!new), W(!new)>(edges: set<(V, V)>, root: V, image: set<(W, W)>, f: V -> W,
                                         vertices: set<V>, hops: nat, v: V)
    requires Relabels(edges, root, image, f, vertices)
    requires v in vertices
    ensures f(v) in Ball(image, f(root), hops) <==> v in Ball(edges, root, hops)
  {
    if v in Ball(edges, root, hops) {
      RelabelForward(edges, root, image, f, vertices, hops, v);
    }
    if f(v) in Ball(image, f(root), hops) {
      var u := RelabelBackward(edges, root, image, f, vertices, hops, f(v));
    }
  }

  ghost function Elements<T>(s: seq<T>): set<T> { set x | x in s }

  lemma ElementsConcat<T>(s: seq<T>, t: seq<T>)
    ensures Elements(s + t) == Elements(s) + Elements(t)
  {
  }

  lemma OutUnion<V(!new)>(edges: set<(V, V)>, left: set<V>, right: set<V>)
    ensures Out(edges, left + right) == Out(edges, left) + Out(edges, right)
  {
  }

  /** Expanding only the outermost level finds the whole next ball. */
  lemma FrontierSuffices<V(!new)>(edges: set<(V, V)>, root: V, frontier: set<V>, hops: nat)
    requires forall v :: v in frontier <==> AtDistance(edges, root, v, hops)
    ensures Ball(edges, root, hops) + Out(edges, frontier) == Ball(edges, root, hops + 1)
  {
    forall v | v in Ball(edges, root, hops + 1) ensures v in Ball(edges, root, hops) + Out(edges, frontier) {
      if v !in Ball(edges, root, hops) {
        var u := NearerPredecessor(edges, root, v, hops + 1);
      }
    }
    assert frontier <= Ball(edges, root, hops);
    forall v | v in Out(edges, frontier) ensures v in Ball(edges, root, hops + 1) {
      var u :| u in frontier && (u, v) in edges;
      BallStep(edges, root, u, v, hops);
    }
  }

  /** The vertices a level adds are those one hop further out. */
  lemma LevelIsBall<V(!new)>(edges: set<(V, V)>, root: V, frontier: set<V>, hops: nat, visited: set<V>)
    requires forall v :: v in frontier <==> AtDistance(edges, root, v, hops)
    requires visited == Ball(edges, root, hops) + Out(edges, frontier)
    ensures visited == Ball(edges, root, hops + 1)
    ensures forall v :: v in visited - Ball(edges, root, hops) <==> AtDistance(edges, root, v, hops + 1)
  {
    FrontierSuffices(edges, root, frontier, hops);
  }

  lemma Accumulated<V>(seen: set<V>, out: set<V>, targets: set<V>, was: set<V>, next: seq<V>,
                    visited: set<V>, found: seq<V>)
    requires was == seen + out && visited == was + targets
    requires Elements(next) == was - seen && Elements(found) == visited - was
    ensures visited == seen + (out + targets)
    ensures Elements(next + found) == visited - seen
    ensures visited - was == targets - was && visited == was + (targets - was)
  {
    ElementsConcat(next, found);
  }
}
