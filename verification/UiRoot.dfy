/** The root the web UI chooses: the node with the most downstream connections,
    the earliest such in the list; without connections, the smallest id. */
module UiRoot {
  import opened Hosts
  import opened UiLayers

  function OutDegree(connections: seq<Connection>, id: string): nat {
    if connections == [] then 0
    else
      var last := connections[|connections| - 1];
      OutDegree(connections[..|connections| - 1], id) + if last.kind == Downstream && last.source == id then 1 else 0
  }

  /** Lexicographic order by character code. */
  predicate LexLeq(a: string, b: string) {
    a == [] || (b != [] && (a[0] < b[0] || (a[0] == b[0] && LexLeq(a[1..], b[1..]))))
  }

  lemma {:induction false} LexTotal(a: string, b: string)
    ensures LexLeq(a, b) || LexLeq(b, a)
  {
    if a != [] && b != [] {
      LexTotal(a[1..], b[1..]);
    }
  }

  lemma {:induction false} LexTransitive(a: string, b: string, c: string)
    requires LexLeq(a, b) && LexLeq(b, c)
    ensures LexLeq(a, c)
  {
    if a != [] && a[0] == b[0] == c[0] {
      LexTransitive(a[1..], b[1..], c[1..]);
    }
  }

  ghost predicate DownstreamAt(connections: seq<Connection>, i: int, id: string) {
    0 <= i < |connections| && connections[i].kind == Downstream && connections[i].source == id
  }

  /** The node of greatest out-degree that is the source of a connection before
      any other such node is. */
  ghost predicate Busiest(connections: seq<Connection>, root: string) {
    && (forall id :: OutDegree(connections, id) <= OutDegree(connections, root))
    && exists i :: DownstreamAt(connections, i, root)
                && forall j, id :: j < i && DownstreamAt(connections, j, id) ==>
                     OutDegree(connections, id) < OutDegree(connections, root)
  }

  ghost predicate IsRoot(connections: seq<Connection>, ids: seq<string>, root: Option<string>) {
    if exists c :: c in connections && c.kind == Downstream then root.Some? && Busiest(connections, root.value)
    else if ids == [] then root.None?
    else root.Some? && root.value in ids && forall id :: id in ids ==> LexLeq(root.value, id)
  }

  lemma {:induction false} NoDegree(connections: seq<Connection>, id: string)
    ensures OutDegree(connections, id) > 0 <==> exists i :: DownstreamAt(connections, i, id)
  {
    if connections != [] {
      var n := |connections| - 1;
      var front := connections[..n];
      NoDegree(front, id);
      forall i ensures DownstreamAt(front, i, id) <==> i < n && DownstreamAt(connections, i, id) {
      }
      if DownstreamAt(connections, n, id) {
      } else if i :| DownstreamAt(connections, i, id) {
        assert DownstreamAt(front, i, id);
      }
    }
  }

  ghost function DownstreamFrom(connections: seq<Connection>, id: string): set<int> {
    set i | 0 <= i < |connections| && connections[i].kind == Downstream && connections[i].source == id
  }

  /** The out-degree is the number of downstream connections from the node. */
  lemma {:induction false} OutDegreeCounts(connections: seq<Connection>, id: string)
    ensures OutDegree(connections, id) == |DownstreamFrom(connections, id)|
  {
    if connections != [] {
      var n := |connections| - 1;
      OutDegreeCounts(connections[..n], id);
      var last := if connections[n].kind == Downstream && connections[n].source == id then {n} else {};
      assert DownstreamFrom(connections, id) == DownstreamFrom(connections[..n], id) + last;
    }
  }

  /** They agree before position `i`, where `a` is smaller. */
  ghost predicate SmallerAt(a: string, b: string, i: int) {
    0 <= i < |a| && i < |b| && a[..i] == b[..i] && a[i] < b[i]
  }

  /** `a` begins `b`, or is smaller where they first differ. */
  ghost predicate SortsFirst(a: string, b: string) { a <= b || exists i :: SmallerAt(a, b, i) }

  lemma {:induction false} LexLeqIff(a: string, b: string)
    ensures LexLeq(a, b) <==> SortsFirst(a, b)
  {
    if a != [] && b != [] {
      LexLeqIff(a[1..], b[1..]);
      if a[0] == b[0] {
        SortsFirstTail(a, b);
      } else if a[0] < b[0] {
        assert SmallerAt(a, b, 0);
      }
    }
  }

  lemma SmallerTail(a: string, b: string, i: int)
    requires a != [] && b != [] && a[0] == b[0]
    ensures SmallerAt(a, b, i) <==> SmallerAt(a[1..], b[1..], i - 1)
  {
    if 1 <= i <= |a| && i <= |b| {
      assert a[..i] == [a[0]] + a[1..][..i - 1];
      assert b[..i] == [b[0]] + b[1..][..i - 1];
      assert a[..i] == b[..i] ==> a[..i][1..] == b[..i][1..];
    }
  }

  lemma PrefixTail(a: string, b: string)
    requires a != [] && b != [] && a[0] == b[0]
    ensures a <= b <==> a[1..] <= b[1..]
  {
    assert a == [a[0]] + a[1..] && b == [b[0]] + b[1..];
  }

  lemma SortsFirstTail(a: string, b: string)
    requires a != [] && b != [] && a[0] == b[0]
    ensures SortsFirst(a, b) <==> SortsFirst(a[1..], b[1..])
  {
    PrefixTail(a, b);
    if i :| SmallerAt(a, b, i) {
      SmallerTail(a, b, i);
    }
    if i :| SmallerAt(a[1..], b[1..], i) {
      SmallerTail(a, b, i + 1);
    }
  }

  /** The out-degrees of the sources among the first connections. */
  ghost predicate Tallied(connections: seq<Connection>, degrees: map<string, nat>) {
    && (forall id :: id in degrees <==> OutDegree(connections, id) > 0)
    && (forall id :: id in degrees ==> degrees[id] == OutDegree(connections, id))
  }

  /** The sources among the first `n` connections, in the order in which they
      appear, and where each first appears. */
  ghost predicate Appeared(connections: seq<Connection>, n: nat, order: seq<string>, firsts: seq<nat>) {
    FirstsFit(connections, n, order, firsts) && AllCovered(connections, n, order, firsts)
  }

  ghost predicate FirstsFit(connections: seq<Connection>, n: nat, order: seq<string>, firsts: seq<nat>) {
    && |firsts| == |order|
    && (forall k :: 0 <= k < |order| ==> firsts[k] < n && DownstreamAt(connections, firsts[k], order[k]))
    && (forall k, l :: 0 <= k < l < |order| ==> firsts[k] < firsts[l])
  }

  ghost predicate AllCovered(connections: seq<Connection>, n: nat, order: seq<string>, firsts: seq<nat>)
    requires |firsts| == |order|
  {
    forall j, id :: j < n && DownstreamAt(connections, j, id) ==> Covered(order, firsts, j, id)
  }

  ghost predicate Covered(order: seq<string>, firsts: seq<nat>, j: int, id: string)
    requires |firsts| == |order|
  {
    exists k :: 0 <= k < |order| && order[k] == id && firsts[k] <= j
  }

  lemma OutDegreeNext(connections: seq<Connection>, n: nat, id: string)
    requires n < |connections|
    ensures OutDegree(connections[..n + 1], id)
         == OutDegree(connections[..n], id)
            + if connections[n].kind == Downstream && connections[n].source == id then 1 else 0
  {
    assert connections[..n + 1][..n] == connections[..n];
  }

  lemma TalliedNext(connections: seq<Connection>, n: nat, degrees: map<string, nat>)
    requires n < |connections| && Tallied(connections[..n], degrees)
    ensures var c := connections[n];
            Tallied(connections[..n + 1],
                    if c.kind == Downstream
                    then degrees[c.source := (if c.source in degrees then degrees[c.source] else 0) + 1]
                    else degrees)
  {
    forall id ensures OutDegree(connections[..n + 1], id)
         == OutDegree(connections[..n], id)
            + if connections[n].kind == Downstream && connections[n].source == id then 1 else 0 {
      OutDegreeNext(connections, n, id);
    }
  }

  lemma CoveredGrows(order: seq<string>, firsts: seq<nat>, id: string, n: nat, j: int, other: string)
    requires |firsts| == |order| && (Covered(order, firsts, j, other) || (other == id && n <= j))
    ensures Covered(order + [id], firsts + [n], j, other)
  {
    var order', firsts' := order + [id], firsts + [n];
    if Covered(order, firsts, j, other) {
      var k :| 0 <= k < |order| && order[k] == other && firsts[k] <= j;
      assert order'[k] == other && firsts'[k] <= j;
    } else {
      assert order'[|order|] == other && firsts'[|order|] <= j;
    }
  }

  lemma AllCoveredNew(connections: seq<Connection>, n: nat, order: seq<string>, firsts: seq<nat>)
    requires n < |connections| && |firsts| == |order| && AllCovered(connections, n, order, firsts)
    ensures AllCovered(connections, n + 1, order + [connections[n].source], firsts + [n])
  {
    forall j, id | j < n + 1 && DownstreamAt(connections, j, id)
      ensures Covered(order + [connections[n].source], firsts + [n], j, id)
    {
      CoveredGrows(order, firsts, connections[n].source, n, j, id);
    }
  }

  lemma AppearedNew(connections: seq<Connection>, n: nat, order: seq<string>, firsts: seq<nat>)
    requires n < |connections| && Appeared(connections, n, order, firsts) && connections[n].kind == Downstream
    ensures Appeared(connections, n + 1, order + [connections[n].source], firsts + [n])
  {
    AllCoveredNew(connections, n, order, firsts);
    assert FirstsFit(connections, n + 1, order + [connections[n].source], firsts + [n]);
  }

  lemma AppearedOld(connections: seq<Connection>, n: nat, order: seq<string>, firsts: seq<nat>)
    requires n < |connections| && Appeared(connections, n, order, firsts)
    requires connections[n].kind == Downstream ==> OutDegree(connections[..n], connections[n].source) > 0
    ensures Appeared(connections, n + 1, order, firsts)
  {
    if connections[n].kind == Downstream {
      SourceCovered(connections, n, order, firsts, connections[n].source);
    }
    forall j, id | j < n + 1 && DownstreamAt(connections, j, id) ensures Covered(order, firsts, j, id) {
    }
  }

  lemma SourceCovered(connections: seq<Connection>, n: nat, order: seq<string>, firsts: seq<nat>, id: string)
    requires n < |connections| && Appeared(connections, n, order, firsts) && OutDegree(connections[..n], id) > 0
    ensures Covered(order, firsts, n, id)
  {
    NoDegree(connections[..n], id);
    var i :| DownstreamAt(connections[..n], i, id);
    assert DownstreamAt(connections, i, id);
    assert Covered(order, firsts, i, id);
  }

  method Tally(connections: seq<Connection>)
    returns (degrees: map<string, nat>, order: seq<string>, ghost firsts: seq<nat>)
    ensures Tallied(connections, degrees) && Appeared(connections, |connections|, order, firsts)
  {
    degrees, order, firsts := map[], [], [];
    for n := 0 to |connections|
      invariant Tallied(connections[..n], degrees) && Appeared(connections, n, order, firsts)
    {
      var c := connections[n];
      TalliedNext(connections, n, degrees);
      if c.kind == Downstream {
        if c.source !in degrees {
          AppearedNew(connections, n, order, firsts);
          order, firsts := order + [c.source], firsts + [n];
        } else {
          AppearedOld(connections, n, order, firsts);
        }
        degrees := degrees[c.source := (if c.source in degrees then degrees[c.source] else 0) + 1];
      } else {
        AppearedOld(connections, n, order, firsts);
      }
    }
    assert connections[..|connections|] == connections;
  }

  /** The first of the sources with the greatest degree. */
  method FirstGreatest(degrees: map<string, nat>, order: seq<string>) returns (best: nat)
    requires order != [] && forall k :: 0 <= k < |order| ==> order[k] in degrees
    ensures best < |order|
    ensures forall k :: 0 <= k < |order| ==> degrees[order[k]] <= degrees[order[best]]
    ensures forall k :: 0 <= k < best ==> degrees[order[k]] < degrees[order[best]]
  {
    best := 0;
    for i := 1 to |order|
      invariant best < i
      invariant forall k :: 0 <= k < i ==> degrees[order[k]] <= degrees[order[best]]
      invariant forall k :: 0 <= k < best ==> degrees[order[k]] < degrees[order[best]]
    {
      if degrees[order[i]] > degrees[order[best]] {
        best := i;
      }
    }
  }

  method SmallestId(ids: seq<string>) returns (least: string)
    requires ids != []
    ensures least in ids && forall id :: id in ids ==> LexLeq(least, id)
  {
    least := ids[0];
    LexTotal(least, least);
    for i := 1 to |ids|
      invariant least in ids && forall k :: 0 <= k < i ==> LexLeq(least, ids[k])
    {
      LexTotal(least, ids[i]);
      LexTotal(ids[i], ids[i]);
      if !LexLeq(least, ids[i]) {
        forall k | 0 <= k < i ensures LexLeq(ids[i], ids[k]) {
          LexTransitive(ids[i], least, ids[k]);
        }
        least := ids[i];
      }
    }
  }

  /** Position `best` holds the first of the greatest degrees. */
  ghost predicate FirstGreatestAt(connections: seq<Connection>, order: seq<string>, best: nat) {
    && best < |order|
    && (forall k :: 0 <= k < |order| ==> OutDegree(connections, order[k]) <= OutDegree(connections, order[best]))
    && (forall k :: 0 <= k < best ==> OutDegree(connections, order[k]) < OutDegree(connections, order[best]))
  }

  lemma GreatestDegree(connections: seq<Connection>, order: seq<string>, firsts: seq<nat>, best: nat, id: string)
    requires Appeared(connections, |connections|, order, firsts) && FirstGreatestAt(connections, order, best)
    ensures OutDegree(connections, id) <= OutDegree(connections, order[best])
  {
    NoDegree(connections, id);
    if OutDegree(connections, id) > 0 {
      var j :| DownstreamAt(connections, j, id);
      assert Covered(order, firsts, j, id);
      var k :| 0 <= k < |order| && order[k] == id && firsts[k] <= j;
    }
  }

  lemma EarlierIsSmaller(connections: seq<Connection>, order: seq<string>, firsts: seq<nat>, best: nat, j: int,
                         id: string)
    requires Appeared(connections, |connections|, order, firsts) && FirstGreatestAt(connections, order, best)
    requires j < firsts[best] && DownstreamAt(connections, j, id)
    ensures OutDegree(connections, id) < OutDegree(connections, order[best])
  {
    assert Covered(order, firsts, j, id);
    var k :| 0 <= k < |order| && order[k] == id && firsts[k] <= j;
    assert k != best && !(best < k);
  }

  lemma GreatestIsBusiest(connections: seq<Connection>, order: seq<string>, firsts: seq<nat>, best: nat)
    requires Appeared(connections, |connections|, order, firsts) && FirstGreatestAt(connections, order, best)
    ensures Busiest(connections, order[best])
  {
    forall id ensures OutDegree(connections, id) <= OutDegree(connections, order[best]) {
      GreatestDegree(connections, order, firsts, best, id);
    }
    assert DownstreamAt(connections, firsts[best], order[best]);
    forall j, id | j < firsts[best] && DownstreamAt(connections, j, id)
      ensures OutDegree(connections, id) < OutDegree(connections, order[best])
    {
      EarlierIsSmaller(connections, order, firsts, best, j, id);
    }
  }

  method ChooseRoot(connections: seq<Connection>, ids: seq<string>) returns (root: Option<string>)
    ensures IsRoot(connections, ids, root)
  {
    var degrees, order, firsts := Tally(connections);
    forall k | 0 <= k < |order| ensures order[k] in degrees {
      NoDegree(connections, order[k]);
    }
    if order != [] {
      var best := FirstGreatest(degrees, order);
      assert FirstGreatestAt(connections, order, best);
      GreatestIsBusiest(connections, order, firsts, best);
      root := Some(order[best]);
      assert connections[firsts[0]] in connections;
    } else {
      NoSources(connections, firsts);
      if ids == [] {
        root := None;
      } else {
        var least := SmallestId(ids);
        root := Some(least);
      }
    }
  }

  lemma NoSources(connections: seq<Connection>, firsts: seq<nat>)
    requires Appeared(connections, |connections|, [], firsts)
    ensures !exists c :: c in connections && c.kind == Downstream
  {
    forall c | c in connections ensures c.kind != Downstream {
      var j :| 0 <= j < |connections| && connections[j] == c;
      assert DownstreamAt(connections, j, c.source) ==> Covered([], firsts, j, c.source);
    }
  }
}
