/** The web UI's layout: the root in the centre, the services of each layer on
    rings around it, at most seventy to a ring. Lengths are real numbers; pi and
    the ordering within a layer are parameters. */
module UiLayout {
  import opened Hosts
  import opened Lists
  import opened UiTopology

  /** A service at slot `slot` of the ring of this radius; the root is at radius 0. */
  datatype Placed = Placed(service: ServiceNode, radius: real, slot: nat)

  datatype Ring = Ring(radius: real, count: nat)

  const PER_RING := 70

  function Max(a: real, b: real): real { if a < b then b else a }

  /** The services of one layer, in order. */
  function OnLayer(services: seq<ServiceNode>, layer: nat): seq<ServiceNode> {
    if services == [] then []
    else
      var last := services[|services| - 1];
      OnLayer(services[..|services| - 1], layer) + if last.layer == layer then [last] else []
  }

  type Groups = map<nat, seq<ServiceNode>>

  method GroupByLayer(services: seq<ServiceNode>) returns (groups: Groups)
    ensures forall layer :: layer in groups <==> OnLayer(services, layer) != []
    ensures forall layer :: layer in groups ==> groups[layer] == OnLayer(services, layer)
  {
    groups := map[];
    for i := 0 to |services|
      invariant forall layer :: layer in groups <==> OnLayer(services[..i], layer) != []
      invariant forall layer :: layer in groups ==> groups[layer] == OnLayer(services[..i], layer)
    {
      var layer := services[i].layer;
      assert services[..i + 1][..i] == services[..i];
      if layer !in groups {
        groups := groups[layer := []];
      }
      groups := groups[layer := groups[layer] + [services[i]]];
    }
    assert services[..|services|] == services;
  }

  /** How many of `n` services the ring at position `k` of a layer holds. */
  function RingCount(n: nat, k: nat): nat
    requires k * PER_RING < n
  {
    if n < (k + 1) * PER_RING then n - k * PER_RING else PER_RING
  }

  /** The circumference leaves every service 260 units. */
  ghost predicate Fits(ring: Ring, pi: real) {
    2.0 * pi * ring.radius >= 260.0 * ring.count as real
  }

  /** Rings at least 300 apart, each wide enough for its services. */
  ghost predicate Spaced(rings: seq<Ring>, pi: real) {
    && (forall i :: 0 <= i < |rings| ==> Fits(rings[i], pi))
    && (forall i :: 0 < i < |rings| ==> rings[i].radius >= rings[i - 1].radius + 300.0)
  }

  lemma SpacedAdded(rings: seq<Ring>, ring: Ring, pi: real)
    requires Spaced(rings, pi) && Fits(ring, pi) && (rings != [] ==> ring.radius >= rings[|rings| - 1].radius + 300.0)
    ensures Spaced(rings + [ring], pi)
  {
    var all := rings + [ring];
    forall i | 0 <= i < |all| ensures Fits(all[i], pi) {
      if i < |rings| {
        assert all[i] == rings[i];
      }
    }
    forall i | 0 < i < |all| ensures all[i].radius >= all[i - 1].radius + 300.0 {
      if i < |rings| {
        assert all[i] == rings[i];
      }
    }
  }

  lemma WideEnough(radius: real, count: nat, pi: real)
    requires pi > 0.0 && radius >= count as real * 260.0 / (2.0 * pi)
    ensures Fits(Ring(radius, count), pi)
  {
    var d := 2.0 * pi;
    var least := count as real * 260.0 / d;
    assert d * least == count as real * 260.0;
    assert d * (radius - least) >= 0.0;
  }

  /** The next radius outwards: beyond the previous ring by at least 40 and 15
      percent, or 300 beyond the layer below, and wide enough for its services. */
  function NextRadius(previous: Option<real>, base: real, count: nat, pi: real): real
    requires pi > 0.0
  {
    var least := count as real * 260.0 / (2.0 * pi);
    if previous.Some? then Max(previous.value + Max(40.0, previous.value * 0.15), least) else Max(base + 300.0, least)
  }

  lemma NextRadiusFits(previous: Option<real>, base: real, count: nat, pi: real)
    requires pi > 0.0
    ensures var radius := NextRadius(previous, base, count, pi);
            && Fits(Ring(radius, count), pi)
            && (if previous.Some? then radius >= previous.value + 40.0 && radius >= 1.15 * previous.value
                else radius >= base + 300.0)
  {
    WideEnough(NextRadius(previous, base, count, pi), count, pi);
  }

  /** The ring after these may have radius `r`: it leaves its services 260 units
      each and lies 300 beyond the layer below, or 40 and 15 percent beyond the
      ring before. */
  ghost predicate Admissible(inside: seq<Ring>, base: real, count: nat, pi: real, r: real) {
    && 2.0 * pi * r >= 260.0 * count as real
    && (inside == [] ==> r >= base + 300.0)
    && (inside != [] ==>
        var previous := inside[|inside| - 1].radius; r >= previous + 40.0 && r >= previous + previous * 0.15)
  }

  ghost predicate Least(inside: seq<Ring>, base: real, count: nat, pi: real, radius: real) {
    && Admissible(inside, base, count, pi, radius)
    && forall r :: Admissible(inside, base, count, pi, r) ==> radius <= r
  }

  lemma AtLeast(radius: real, count: nat, pi: real)
    requires pi > 0.0 && 2.0 * pi * radius >= 260.0 * count as real
    ensures radius >= count as real * 260.0 / (2.0 * pi)
  {
    var d := 2.0 * pi;
    var least := count as real * 260.0 / d;
    assert d * least == count as real * 260.0;
    assert d * (radius - least) >= 0.0;
    PositiveFactor(d, radius - least);
  }

  lemma PositiveFactor(d: real, x: real)
    requires d > 0.0 && d * x >= 0.0
    ensures x >= 0.0
  {
  }

  /** Every ring is as small as it may be. */
  lemma NextRadiusLeast(inside: seq<Ring>, base: real, count: nat, pi: real)
    requires pi > 0.0
    ensures var previous := if inside == [] then None else Some(inside[|inside| - 1].radius);
            Least(inside, base, count, pi, NextRadius(previous, base, count, pi))
  {
    var previous := if inside == [] then None else Some(inside[|inside| - 1].radius);
    var radius := NextRadius(previous, base, count, pi);
    NextRadiusFits(previous, base, count, pi);
    forall r | Admissible(inside, base, count, pi, r) ensures radius <= r {
      AtLeast(r, count, pi);
    }
  }

  /** The rings of a layer of `n` services outside radius `base`: seventy on
      each but the last, every radius the least that may be. */
  ghost predicate Tight(rings: seq<Ring>, n: nat, base: real, pi: real) {
    forall k :: 0 <= k < |rings| ==>
      && rings[k].count == (if n - 70 * k < 70 then n - 70 * k else 70) && rings[k].count > 0
      && Least(rings[..k], base, rings[k].count, pi, rings[k].radius)
  }

  lemma TightAdded(rings: seq<Ring>, n: nat, base: real, pi: real, ring: Ring)
    requires Tight(rings, n, base, pi) && 70 * |rings| < n
    requires ring.count == if n - 70 * |rings| < 70 then n - 70 * |rings| else 70
    requires Least(rings, base, ring.count, pi, ring.radius)
    ensures Tight(rings + [ring], n, base, pi)
  {
    var all := rings + [ring];
    forall k | 0 <= k < |all|
      ensures all[k].count == (if n - 70 * k < 70 then n - 70 * k else 70) && all[k].count > 0
      ensures Least(all[..k], base, all[k].count, pi, all[k].radius)
    {
      if k < |rings| {
        assert all[k] == rings[k] && all[..k] == rings[..k];
      } else {
        assert all[..k] == rings;
      }
    }
  }

  /** Each ring at least 15 percent wider than the one inside it. */
  ghost predicate Widening(rings: seq<Ring>) {
    forall i :: 0 < i < |rings| ==> rings[i].radius >= 1.15 * rings[i - 1].radius
  }

  /** A full ring is so wide that 15 percent of its radius exceed 300. */
  lemma FullRingWide(ring: Ring, pi: real)
    requires 0.0 < pi <= 4.0 && ring.count == PER_RING
    ensures ring.radius < 2275.0 ==> !Fits(ring, pi)
  {
    if ring.radius < 2275.0 {
      assert pi * (2275.0 - ring.radius) > 0.0;
    }
  }

  /** The first rings of a layer of `n` services outside radius `base`. */
  ghost predicate RingsOf(rings: seq<Ring>, n: nat, base: real, pi: real) {
    && Spaced(rings, pi) && Widening(rings)
    && (|rings| > 0 ==> rings[0].radius >= base + 300.0)
    && Counted(rings, n)
  }

  ghost predicate Counted(rings: seq<Ring>, n: nat) {
    forall k :: 0 <= k < |rings| ==> k * PER_RING < n && rings[k].count == RingCount(n, k)
  }

  lemma CountedAdded(rings: seq<Ring>, n: nat, radius: real)
    requires Counted(rings, n) && |rings| * PER_RING < n
    ensures Counted(rings + [Ring(radius, RingCount(n, |rings|))], n)
  {
    var all := rings + [Ring(radius, RingCount(n, |rings|))];
    forall k | 0 <= k < |all| ensures k * PER_RING < n && all[k].count == RingCount(n, k) {
      if k < |rings| {
        assert all[k] == rings[k];
      }
    }
  }

  /** A further ring is begun only outside a full one. */
  lemma LastRingFull(rings: seq<Ring>, n: nat)
    requires Counted(rings, n) && rings != [] && |rings| * PER_RING < n
    ensures rings[|rings| - 1].count == PER_RING
  {
    var k := |rings| - 1;
    assert rings[k].count == RingCount(n, k);
  }

  lemma RingAdded(rings: seq<Ring>, n: nat, base: real, pi: real, previous: Option<real>)
    requires RingsOf(rings, n, base, pi) && 0.0 < pi <= 4.0 && |rings| * PER_RING < n
    requires previous == if rings == [] then None else Some(rings[|rings| - 1].radius)
    ensures var count := RingCount(n, |rings|);
            RingsOf(rings + [Ring(NextRadius(previous, base, count, pi), count)], n, base, pi)
  {
    var count := RingCount(n, |rings|);
    var radius := NextRadius(previous, base, count, pi);
    NextRadiusFits(previous, base, count, pi);
    if rings != [] {
      LastRingFull(rings, n);
      FullRingWide(rings[|rings| - 1], pi);
    }
    SpacedAdded(rings, Ring(radius, count), pi);
    CountedAdded(rings, n, radius);
  }

  method LayerRings(n: nat, base: real, pi: real) returns (rings: seq<Ring>)
    requires n > 0 && 0.0 < pi <= 4.0
    ensures RingsOf(rings, n, base, pi) && |rings| > 0 && n <= |rings| * PER_RING
    ensures Tight(rings, n, base, pi) && n <= 70 * |rings|
  {
    rings := [];
    while |rings| * PER_RING < n
      invariant RingsOf(rings, n, base, pi) && Tight(rings, n, base, pi)
      invariant n > |rings| * PER_RING || |rings| > 0
      decreases n - |rings| * PER_RING
    {
      var count := RingCount(n, |rings|);
      var previous := if rings == [] then None else Some(rings[|rings| - 1].radius);
      RingAdded(rings, n, base, pi, previous);
      NextRadiusLeast(rings, base, count, pi);
      TightAdded(rings, n, base, pi, Ring(NextRadius(previous, base, count, pi), count));
      rings := rings + [Ring(NextRadius(previous, base, count, pi), count)];
    }
  }

  /** Positions strictly increase, by ring and then by slot: none is used twice. */
  ghost predicate Increasing(nodes: seq<Placed>) {
    forall i, j :: 0 <= i < j < |nodes| ==>
      nodes[i].radius < nodes[j].radius || (nodes[i].radius == nodes[j].radius && nodes[i].slot < nodes[j].slot)
  }

  function Services(nodes: seq<Placed>): seq<ServiceNode> {
    seq(|nodes|, i requires 0 <= i < |nodes| => nodes[i].service)
  }

  function PlaceOn(services: seq<ServiceNode>, rings: seq<Ring>): (r: seq<Placed>)
    requires |services| <= |rings| * PER_RING
    ensures Services(r) == services
  {
    seq(|services|, i requires 0 <= i < |services| =>
      assert i / PER_RING < |rings|;
      Placed(services[i], rings[i / PER_RING].radius, i % PER_RING))
  }

  lemma {:induction false} RingsGrow(rings: seq<Ring>, pi: real, k: nat, l: nat)
    requires Spaced(rings, pi) && k < l < |rings|
    ensures rings[k].radius + 300.0 <= rings[l].radius
    decreases l
  {
    assert rings[l].radius >= rings[l - 1].radius + 300.0;
    if k < l - 1 {
      RingsGrow(rings, pi, k, l - 1);
    }
  }

  lemma RingsWiden(rings: seq<Ring>, pi: real, k: nat, l: nat)
    requires Spaced(rings, pi) && Widening(rings) && k < l < |rings|
    ensures rings[l].radius >= 1.15 * rings[k].radius
  {
    if k < l - 1 {
      RingsGrow(rings, pi, k, l - 1);
    }
  }

  /** The rings of one layer widen by at least 15 percent each. */
  ghost predicate Spread(nodes: seq<Placed>) {
    forall i, j :: 0 <= i < j < |nodes| && nodes[i].service.layer == nodes[j].service.layer ==>
      nodes[i].radius == nodes[j].radius || nodes[j].radius >= 1.15 * nodes[i].radius
  }

  lemma PlacedSpread(services: seq<ServiceNode>, rings: seq<Ring>, pi: real)
    requires |services| <= |rings| * PER_RING && Spaced(rings, pi) && Widening(rings)
    ensures Spread(PlaceOn(services, rings))
  {
    var r := PlaceOn(services, rings);
    forall i, j | 0 <= i < j < |r| ensures r[i].radius == r[j].radius || r[j].radius >= 1.15 * r[i].radius {
      if i / PER_RING < j / PER_RING {
        RingsWiden(rings, pi, i / PER_RING, j / PER_RING);
      }
    }
  }

  lemma PlacedIncreasing(services: seq<ServiceNode>, rings: seq<Ring>, pi: real)
    requires |services| <= |rings| * PER_RING && Spaced(rings, pi)
    ensures Increasing(PlaceOn(services, rings))
  {
    forall i, j | 0 <= i < j < |services|
      ensures var r := PlaceOn(services, rings);
              r[i].radius < r[j].radius || (r[i].radius == r[j].radius && r[i].slot < r[j].slot)
    {
      var k, l := i / PER_RING, j / PER_RING;
      assert i == k * PER_RING + i % PER_RING && j == l * PER_RING + j % PER_RING;
      if k < l {
        RingsGrow(rings, pi, k, l);
      }
    }
  }

  /** On a ring that has a slot for it. */
  ghost predicate OnRing(node: Placed, rings: seq<Ring>) {
    exists k :: 0 <= k < |rings| && node.radius == rings[k].radius && node.slot < rings[k].count
  }

  /** Beyond radius 200 plus one layer's step, and no further out than `base`. */
  ghost predicate Within(node: Placed, base: real) { 500.0 <= node.radius <= base }

  /** The layers of the nodes never decrease, and a new layer starts at least
      300 further out. */
  ghost predicate Layered(nodes: seq<Placed>) {
    forall i, j :: 0 <= i < j < |nodes| ==>
      && nodes[i].service.layer <= nodes[j].service.layer
      && (nodes[i].service.layer < nodes[j].service.layer ==> nodes[i].radius + 300.0 <= nodes[j].radius)
  }

  /** The nodes of the layers up to `limit`, placed on rings out to `base`. */
  ghost predicate Around(nodes: seq<Placed>, rings: seq<Ring>, base: real, limit: nat, pi: real) {
    && base >= 200.0 && Spaced(rings, pi) && Increasing(nodes) && Layered(nodes) && Spread(nodes)
    && (rings != [] ==> rings[|rings| - 1].radius == base)
    && (forall i :: 0 <= i < |nodes| ==>
        nodes[i].service.layer <= limit && Within(nodes[i], base) && OnRing(nodes[i], rings))
  }

  lemma PlacedOnRings(services: seq<ServiceNode>, rings: seq<Ring>, i: nat)
    requires |services| <= |rings| * PER_RING && Counted(rings, |services|) && i < |services|
    ensures var node := PlaceOn(services, rings)[i];
            OnRing(node, rings) && exists k :: 0 <= k < |rings| && node.radius == rings[k].radius
  {
    var k := i / PER_RING;
    assert k < |rings| && rings[k].count == RingCount(|services|, k);
    assert i == k * PER_RING + i % PER_RING;
    assert PlaceOn(services, rings)[i].radius == rings[k].radius;
  }

  /** Every ring of a layer lies between its first and its last. */
  lemma RingBounds(rings: seq<Ring>, pi: real, k: nat)
    requires Spaced(rings, pi) && k < |rings|
    ensures rings[0].radius <= rings[k].radius <= rings[|rings| - 1].radius
  {
    if k > 0 {
      RingsGrow(rings, pi, 0, k);
    }
    if k < |rings| - 1 {
      RingsGrow(rings, pi, k, |rings| - 1);
    }
  }

  /** A layer on its own rings: layer `layer`, from `inner` out to `base`. */
  ghost predicate IsBand(nodes: seq<Placed>, rings: seq<Ring>, layer: nat, inner: real, base: real, pi: real) {
    && rings != [] && Spaced(rings, pi) && Increasing(nodes) && Spread(nodes)
    && rings[0].radius >= inner + 300.0 && rings[|rings| - 1].radius == base
    && forall i :: 0 <= i < |nodes| ==>
         nodes[i].service.layer == layer && inner + 300.0 <= nodes[i].radius <= base && OnRing(nodes[i], rings)
  }

  lemma PlacedIsBand(services: seq<ServiceNode>, rings: seq<Ring>, layer: nat, inner: real, pi: real)
    requires rings != [] && |services| <= |rings| * PER_RING && RingsOf(rings, |services|, inner, pi)
    requires forall i :: 0 <= i < |services| ==> services[i].layer == layer
    ensures IsBand(PlaceOn(services, rings), rings, layer, inner, rings[|rings| - 1].radius, pi)
  {
    PlacedIncreasing(services, rings, pi);
    PlacedSpread(services, rings, pi);
    var nodes := PlaceOn(services, rings);
    forall i | 0 <= i < |nodes|
      ensures inner + 300.0 <= nodes[i].radius <= rings[|rings| - 1].radius && OnRing(nodes[i], rings)
      ensures nodes[i].service.layer == layer
    {
      PlacedOnRings(services, rings, i);
      var k :| 0 <= k < |rings| && nodes[i].radius == rings[k].radius;
      RingBounds(rings, pi, k);
      assert nodes[i].service == services[i];
    }
  }

  lemma SpacedConcat(rings: seq<Ring>, more: seq<Ring>, pi: real)
    requires Spaced(rings, pi) && Spaced(more, pi)
    requires rings != [] && more != [] ==> more[0].radius >= rings[|rings| - 1].radius + 300.0
    ensures Spaced(rings + more, pi)
  {
    var all := rings + more;
    forall i | 0 <= i < |all| ensures Fits(all[i], pi) {
      assert all[i] == if i < |rings| then rings[i] else more[i - |rings|];
    }
    forall i | 0 < i < |all| ensures all[i].radius >= all[i - 1].radius + 300.0 {
      if i < |rings| {
        assert all[i] == rings[i] && all[i - 1] == rings[i - 1];
      } else if i > |rings| {
        assert all[i] == more[i - |rings|] && all[i - 1] == more[i - |rings| - 1];
      }
    }
  }

  lemma OnMoreRings(node: Placed, rings: seq<Ring>, more: seq<Ring>)
    requires OnRing(node, rings) || OnRing(node, more)
    ensures OnRing(node, rings + more)
  {
    var all := rings + more;
    if OnRing(node, rings) {
      var k :| 0 <= k < |rings| && node.radius == rings[k].radius && node.slot < rings[k].count;
      assert all[k] == rings[k];
    } else {
      var k :| 0 <= k < |more| && node.radius == more[k].radius && node.slot < more[k].count;
      assert all[|rings| + k] == more[k];
    }
  }

  /** Node `a` comes before node `b`, on the same ring or on one further in. */
  ghost predicate Before(a: Placed, b: Placed) {
    && (a.radius < b.radius || (a.radius == b.radius && a.slot < b.slot))
    && a.service.layer <= b.service.layer
    && (a.service.layer < b.service.layer ==> a.radius + 300.0 <= b.radius)
  }

  lemma BandAfter(nodes: seq<Placed>, more: seq<Placed>)
    requires Increasing(nodes) && Layered(nodes) && Increasing(more)
    requires forall i, j :: 0 <= i < j < |more| ==> more[i].service.layer == more[j].service.layer
    requires forall i, j :: 0 <= i < |nodes| && 0 <= j < |more| ==> Before(nodes[i], more[j])
    ensures Increasing(nodes + more) && Layered(nodes + more)
  {
    var all := nodes + more;
    forall i, j | 0 <= i < j < |all| ensures Before(all[i], all[j]) {
      if j < |nodes| {
        assert all[i] == nodes[i] && all[j] == nodes[j];
      } else if i < |nodes| {
        assert all[i] == nodes[i] && all[j] == more[j - |nodes|];
      } else {
        assert all[i] == more[i - |nodes|] && all[j] == more[j - |nodes|];
      }
    }
  }

  lemma SpreadConcat(nodes: seq<Placed>, more: seq<Placed>)
    requires Spread(nodes) && Spread(more)
    requires forall i, j :: 0 <= i < |nodes| && 0 <= j < |more| ==> nodes[i].service.layer < more[j].service.layer
    ensures Spread(nodes + more)
  {
    var all := nodes + more;
    forall i, j | 0 <= i < j < |all|
      ensures all[i].service.layer == all[j].service.layer ==>
                all[i].radius == all[j].radius || all[j].radius >= 1.15 * all[i].radius
    {
      if j < |nodes| {
        assert all[i] == nodes[i] && all[j] == nodes[j];
      } else if i < |nodes| {
        assert all[i] == nodes[i] && all[j] == more[j - |nodes|];
      } else {
        assert all[i] == more[i - |nodes|] && all[j] == more[j - |nodes|];
      }
    }
  }

  /** Placing one more layer outside the others. */
  lemma BandAdded(nodes: seq<Placed>, rings: seq<Ring>, base: real, limit: nat, more: seq<Placed>, outer: seq<Ring>,
                  base': real, layer: nat, pi: real)
    requires Around(nodes, rings, base, limit, pi) && IsBand(more, outer, layer, base, base', pi) && limit < layer
    ensures Around(nodes + more, rings + outer, base', layer, pi)
  {
    RingBounds(outer, pi, 0);
    SpacedConcat(rings, outer, pi);
    BandAfter(nodes, more);
    SpreadConcat(nodes, more);
    var all := nodes + more;
    forall i | 0 <= i < |all|
      ensures all[i].service.layer <= layer && Within(all[i], base') && OnRing(all[i], rings + outer)
    {
      assert all[i] == if i < |nodes| then nodes[i] else more[i - |nodes|];
      OnMoreRings(all[i], rings, outer);
    }
  }

  lemma {:induction false} OnLayerCount(services: seq<ServiceNode>, layer: nat, s: ServiceNode)
    ensures multiset(OnLayer(services, layer))[s] == if s.layer == layer then multiset(services)[s] else 0
  {
    if services != [] {
      var n := |services| - 1;
      OnLayerCount(services[..n], layer, s);
      assert services == services[..n] + [services[n]];
    }
  }

  ghost function OfLayer(layer: nat): (ServiceNode, ServiceNode) -> bool {
    (s: ServiceNode, t: ServiceNode) => s == t && s.layer == layer
  }

  /** The services of a layer keep the order in which they are listed. */
  lemma {:induction false} OnLayerInOrder(services: seq<ServiceNode>, layer: nat)
    ensures InOrder(services, OnLayer(services, layer), OfLayer(layer))
  {
    if services != [] {
      var n := |services| - 1;
      var front, last := OnLayer(services[..n], layer), services[n];
      OnLayerInOrder(services[..n], layer);
      if last.layer == layer {
        assert OfLayer(layer)(last, last);
        assert OnLayer(services, layer)[..|front|] == front;
      } else {
        assert OnLayer(services, layer) == front;
      }
    }
  }

  lemma OnLayerMember(services: seq<ServiceNode>, layer: nat, s: ServiceNode)
    ensures s in OnLayer(services, layer) <==> s in services && s.layer == layer
  {
    OnLayerCount(services, layer, s);
    assert s in OnLayer(services, layer) <==> s in multiset(OnLayer(services, layer));
    assert s in services <==> s in multiset(services);
  }

  ghost predicate IsRootAt(services: seq<ServiceNode>, root: Option<string>, i: int) {
    0 <= i < |services| && root == Some(services[i].id)
  }

  /** The service drawn in the centre: the first one with the root's id. */
  ghost predicate IsCenter(services: seq<ServiceNode>, root: Option<string>, center: Option<ServiceNode>) {
    if center.None? then forall i :: !IsRootAt(services, root, i)
    else exists i :: IsRootAt(services, root, i) && services[i] == center.value
                  && forall j :: j < i ==> !IsRootAt(services, root, j)
  }

  method FindRoot(services: seq<ServiceNode>, root: Option<string>) returns (center: Option<ServiceNode>)
    ensures IsCenter(services, root, center)
  {
    for i := 0 to |services|
      invariant forall j :: j < i ==> !IsRootAt(services, root, j)
    {
      if root == Some(services[i].id) {
        assert IsRootAt(services, root, i);
        return Some(services[i]);
      }
    }
    center := None;
  }

  /** The layers that are placed on rings: all but the centre's. */
  ghost function OuterLayers(services: seq<ServiceNode>, center: Option<ServiceNode>): (r: set<nat>)
    ensures forall s :: s in services && !(center.Some? && s.layer == center.value.layer) ==> s.layer in r
  {
    set s | s in services && !(center.Some? && s.layer == center.value.layer) :: s.layer
  }

  lemma OuterLayersMember(services: seq<ServiceNode>, center: Option<ServiceNode>, layer: nat)
    ensures layer in OuterLayers(services, center) <==>
            OnLayer(services, layer) != [] && !(center.Some? && layer == center.value.layer)
  {
    if OnLayer(services, layer) != [] {
      OnLayerMember(services, layer, OnLayer(services, layer)[0]);
    }
    if layer in OuterLayers(services, center) {
      var s :| s in services && !(center.Some? && s.layer == center.value.layer) && s.layer == layer;
      OnLayerMember(services, layer, s);
    }
  }

  /** How often a service is drawn on the rings when the layers 1 to `n` are. */
  ghost function Drawn(services: seq<ServiceNode>, center: Option<ServiceNode>, n: nat, s: ServiceNode): nat {
    if 1 <= s.layer <= n && !(center.Some? && s.layer == center.value.layer) then multiset(services)[s] else 0
  }

  ghost predicate Draws(services: seq<ServiceNode>, center: Option<ServiceNode>, n: nat, nodes: seq<Placed>) {
    forall s :: multiset(Services(nodes))[s] == Drawn(services, center, n, s)
  }

  lemma ServicesConcat(a: seq<Placed>, b: seq<Placed>)
    ensures Services(a + b) == Services(a) + Services(b)
  {
  }

  lemma LayerDrawn(services: seq<ServiceNode>, center: Option<ServiceNode>, n: nat, nodes: seq<Placed>,
                   more: seq<Placed>)
    requires Draws(services, center, n, nodes) && !(center.Some? && n + 1 == center.value.layer)
    requires multiset(Services(more)) == multiset(OnLayer(services, n + 1))
    ensures Draws(services, center, n + 1, nodes + more)
  {
    ServicesConcat(nodes, more);
    forall s ensures multiset(Services(nodes + more))[s] == Drawn(services, center, n + 1, s) {
      OnLayerCount(services, n + 1, s);
    }
  }

  lemma LayerSkipped(services: seq<ServiceNode>, center: Option<ServiceNode>, n: nat, nodes: seq<Placed>)
    requires Draws(services, center, n, nodes)
    requires (center.Some? && n + 1 == center.value.layer) || OnLayer(services, n + 1) == []
    ensures Draws(services, center, n + 1, nodes)
  {
    forall s ensures multiset(Services(nodes))[s] == Drawn(services, center, n + 1, s) {
      OnLayerCount(services, n + 1, s);
    }
  }

  /** Groups by layer without the centre's. */
  ghost predicate IsGrouped(services: seq<ServiceNode>, center: Option<ServiceNode>, groups: Groups) {
    && groups.Keys == OuterLayers(services, center)
    && forall layer :: layer in groups ==> groups[layer] == OnLayer(services, layer)
  }

  method Group(services: seq<ServiceNode>, center: Option<ServiceNode>) returns (groups: Groups)
    ensures IsGrouped(services, center, groups)
  {
    groups := GroupByLayer(services);
    if center.Some? {
      groups := map layer | layer in groups && layer != center.value.layer :: groups[layer];
    }
    forall layer: nat ensures layer in groups <==> layer in OuterLayers(services, center) {
      OuterLayersMember(services, center, layer);
    }
  }

  /** One layer, arranged and placed outside radius `inner`. */
  method PlaceLayer(sorted: seq<ServiceNode>, ghost layer: nat, inner: real, pi: real)
    returns (nodes: seq<Placed>, rings: seq<Ring>, base: real)
    requires sorted != [] && 0.0 < pi <= 4.0 && forall i :: 0 <= i < |sorted| ==> sorted[i].layer == layer
    ensures IsBand(nodes, rings, layer, inner, base, pi) && Services(nodes) == sorted
    ensures PlacedOn(nodes, sorted, rings) && Tight(rings, |sorted|, inner, pi)
    ensures rings != [] && base == rings[|rings| - 1].radius
  {
    rings := LayerRings(|sorted|, inner, pi);
    PlacedIsBand(sorted, rings, layer, inner, pi);
    nodes, base := PlaceOn(sorted, rings), rings[|rings| - 1].radius;
  }

  /** The services of a layer on its rings, seventy after seventy. */
  ghost predicate PlacedOn(nodes: seq<Placed>, layer: seq<ServiceNode>, rings: seq<Ring>) {
    && |nodes| == |layer|
    && forall i :: 0 <= i < |nodes| ==>
         && nodes[i].service == layer[i] && i / 70 < |rings|
         && nodes[i].radius == rings[i / 70].radius && nodes[i].slot == i % 70
  }

  /** What is drawn of layer `n`: nothing if it is the centre's. */
  ghost function LayerShown(services: seq<ServiceNode>, center: Option<ServiceNode>,
                            arrange: seq<ServiceNode> -> seq<ServiceNode>, n: nat): seq<ServiceNode> {
    if OnLayer(services, n) == [] || (center.Some? && n == center.value.layer) then []
    else arrange(OnLayer(services, n))
  }

  /** The radius of the outermost ring; 200 before there is one. */
  ghost function Outermost(bands: seq<seq<Ring>>): real {
    if bands == [] then 200.0
    else
      var last := bands[|bands| - 1];
      if last == [] then Outermost(bands[..|bands| - 1]) else last[|last| - 1].radius
  }

  /** The whole drawing around the centre: layer by layer in the arranged order,
      each on its own tight rings outside those of the layers before. */
  ghost predicate LaidOut(services: seq<ServiceNode>, center: Option<ServiceNode>,
                          arrange: seq<ServiceNode> -> seq<ServiceNode>, bands: seq<seq<Ring>>, around: seq<Placed>,
                          pi: real) {
    if bands == [] then around == []
    else
      var n := |bands|;
      var layer, inner, rings := LayerShown(services, center, arrange, n), bands[..n - 1], bands[n - 1];
      var cut := |around| - |layer|;
      && cut >= 0 && LaidOut(services, center, arrange, inner, around[..cut], pi)
      && PlacedOn(around[cut..], layer, rings)
      && Tight(rings, |layer|, Outermost(inner), pi) && (layer == [] ==> rings == [])
  }

  lemma LaidOutNext(services: seq<ServiceNode>, center: Option<ServiceNode>,
                    arrange: seq<ServiceNode> -> seq<ServiceNode>, bands: seq<seq<Ring>>, around: seq<Placed>,
                    nodes: seq<Placed>, rings: seq<Ring>, pi: real)
    requires LaidOut(services, center, arrange, bands, around, pi)
    requires var layer := LayerShown(services, center, arrange, |bands| + 1);
             && PlacedOn(nodes, layer, rings) && Tight(rings, |layer|, Outermost(bands), pi)
             && (layer == [] ==> rings == [])
    ensures LaidOut(services, center, arrange, bands + [rings], around + nodes, pi)
  {
    var all := around + nodes;
    assert (bands + [rings])[..|bands|] == bands;
    assert all[..|around|] == around && all[|around|..] == nodes;
  }

  lemma SameLayer(services: seq<ServiceNode>, layer: nat, sorted: seq<ServiceNode>)
    requires multiset(sorted) == multiset(OnLayer(services, layer)) && OnLayer(services, layer) != []
    ensures sorted != [] && forall i :: 0 <= i < |sorted| ==> sorted[i].layer == layer
  {
    assert |multiset(sorted)| == |OnLayer(services, layer)|;
    forall i | 0 <= i < |sorted| ensures sorted[i].layer == layer {
      assert sorted[i] in multiset(sorted);
      OnLayerMember(services, layer, sorted[i]);
    }
  }

  lemma LimitRaised(nodes: seq<Placed>, rings: seq<Ring>, base: real, limit: nat, limit': nat, pi: real)
    requires Around(nodes, rings, base, limit, pi) && limit <= limit'
    ensures Around(nodes, rings, base, limit', pi)
  {
  }

  /** The drawing after the layers 1 to `n`. */
  ghost predicate Placing(services: seq<ServiceNode>, center: Option<ServiceNode>,
                          arrange: seq<ServiceNode> -> seq<ServiceNode>, n: nat, around: seq<Placed>, rings: seq<Ring>,
                          base: real, bands: seq<seq<Ring>>, pi: real) {
    && Around(around, rings, base, n, pi) && Draws(services, center, n, around)
    && LaidOut(services, center, arrange, bands, around, pi) && |bands| == n && base == Outermost(bands)
  }

  lemma LayerPassed(services: seq<ServiceNode>, center: Option<ServiceNode>,
                    arrange: seq<ServiceNode> -> seq<ServiceNode>, n: nat, around: seq<Placed>, rings: seq<Ring>,
                    base: real, bands: seq<seq<Ring>>, pi: real)
    requires Placing(services, center, arrange, n, around, rings, base, bands, pi)
    requires (center.Some? && n + 1 == center.value.layer) || OnLayer(services, n + 1) == []
    ensures Placing(services, center, arrange, n + 1, around, rings, base, bands + [[]], pi)
  {
    LayerSkipped(services, center, n, around);
    LimitRaised(around, rings, base, n, n + 1, pi);
    LaidOutNext(services, center, arrange, bands, around, [], [], pi);
    assert around + [] == around;
    assert (bands + [[]])[..n] == bands;
  }

  lemma LayerPlaced(services: seq<ServiceNode>, center: Option<ServiceNode>,
                    arrange: seq<ServiceNode> -> seq<ServiceNode>, n: nat, around: seq<Placed>, rings: seq<Ring>,
                    base: real, bands: seq<seq<Ring>>, pi: real, nodes: seq<Placed>, outer: seq<Ring>, base': real)
    requires Placing(services, center, arrange, n, around, rings, base, bands, pi)
    requires OnLayer(services, n + 1) != [] && !(center.Some? && n + 1 == center.value.layer)
    requires var sorted := arrange(OnLayer(services, n + 1));
             && multiset(sorted) == multiset(OnLayer(services, n + 1)) && sorted != []
             && Services(nodes) == sorted && PlacedOn(nodes, sorted, outer) && Tight(outer, |sorted|, base, pi)
    requires IsBand(nodes, outer, n + 1, base, base', pi) && base' == outer[|outer| - 1].radius
    ensures Placing(services, center, arrange, n + 1, around + nodes, rings + outer, base', bands + [outer], pi)
  {
    LayerDrawn(services, center, n, around, nodes);
    BandAdded(around, rings, base, n, nodes, outer, base', n + 1, pi);
    LaidOutNext(services, center, arrange, bands, around, nodes, outer, pi);
  }

  /** The root is drawn in the centre and the layers 1 to the number of outer
      layers around it, every service of those as often as it is listed. No two
      services share a position. `arrange` is the sort within a layer. */
  method ConvertToFlowData(services: seq<ServiceNode>, root: Option<string>,
                           arrange: seq<ServiceNode> -> seq<ServiceNode>, pi: real)
    returns (center: Option<ServiceNode>, around: seq<Placed>, rings: seq<Ring>, base: real,
             ghost bands: seq<seq<Ring>>)
    requires 0.0 < pi <= 4.0 && forall s :: multiset(arrange(s)) == multiset(s)
    ensures IsCenter(services, root, center)
    ensures Placing(services, center, arrange, |OuterLayers(services, center)|, around, rings, base, bands, pi)
  {
    center := FindRoot(services, root);
    var groups := Group(services, center);
    around, rings, base, bands := [], [], 200.0, [];
    for n := 0 to |groups|
      invariant Placing(services, center, arrange, n, around, rings, base, bands, pi)
    {
      OuterLayersMember(services, center, n + 1);
      if n + 1 in groups {
        var sorted := arrange(groups[n + 1]);
        SameLayer(services, n + 1, sorted);
        var nodes, outer, base' := PlaceLayer(sorted, n + 1, base, pi);
        LayerPlaced(services, center, arrange, n, around, rings, base, bands, pi, nodes, outer, base');
        around, rings, base, bands := around + nodes, rings + outer, base', bands + [outer];
      } else {
        LayerPassed(services, center, arrange, n, around, rings, base, bands, pi);
        bands := bands + [[]];
      }
    }
    assert groups.Keys == OuterLayers(services, center);
  }

  /** All drawn nodes, the centre first. */
  function AllServices(center: Option<ServiceNode>, around: seq<Placed>): seq<ServiceNode> {
    (if center.Some? then [center.value] else []) + Services(around)
  }

  /** The centre's layer holds nothing else, and the other layers are numbered
      from 1 without a gap. */
  ghost predicate Contiguous(services: seq<ServiceNode>, center: Option<ServiceNode>) {
    && (center.Some? ==> OnLayer(services, center.value.layer) == [center.value])
    && (forall layer :: layer in OuterLayers(services, center) ==> 1 <= layer <= |OuterLayers(services, center)|)
  }

  lemma TotalCount(center: Option<ServiceNode>, around: seq<Placed>, s: ServiceNode)
    ensures multiset(AllServices(center, around))[s]
         == multiset(Services(around))[s] + if center == Some(s) then 1 else 0
  {
  }

  lemma AloneOnLayer(services: seq<ServiceNode>, c: ServiceNode, s: ServiceNode)
    requires OnLayer(services, c.layer) == [c] && s.layer == c.layer
    ensures multiset(services)[s] == if s == c then 1 else 0
  {
    OnLayerCount(services, c.layer, s);
  }

  lemma ContiguousDraws(services: seq<ServiceNode>, center: Option<ServiceNode>, around: seq<Placed>, s: ServiceNode)
    requires Contiguous(services, center) && Draws(services, center, |OuterLayers(services, center)|, around)
    ensures multiset(AllServices(center, around))[s] == multiset(services)[s]
  {
    TotalCount(center, around, s);
    if center.Some? && s.layer == center.value.layer {
      AloneOnLayer(services, center.value, s);
    } else if s in services {
      assert s.layer in OuterLayers(services, center);
    }
  }

  lemma OneElement<T>(s: seq<T>, x: T)
    requires multiset(s) == multiset{x}
    ensures s == [x]
  {
    assert |s| == |multiset(s)| == 1;
    assert s[0] in multiset(s);
  }

  lemma DrawnAlone(services: seq<ServiceNode>, c: ServiceNode, around: seq<Placed>)
    requires multiset(AllServices(Some(c), around)) == multiset(services)
    requires Draws(services, Some(c), |OuterLayers(services, Some(c))|, around)
    ensures OnLayer(services, c.layer) == [c]
  {
    var on := OnLayer(services, c.layer);
    forall s ensures multiset(on)[s] == multiset{c}[s] {
      OnLayerCount(services, c.layer, s);
      TotalCount(Some(c), around, s);
    }
    OneElement(on, c);
  }

  /** Nothing is lost or duplicated: the drawn nodes are a permutation of the
      services exactly when the layers are contiguous. */
  lemma LayoutComplete(services: seq<ServiceNode>, center: Option<ServiceNode>, around: seq<Placed>)
    requires Draws(services, center, |OuterLayers(services, center)|, around)
    ensures multiset(AllServices(center, around)) == multiset(services) <==> Contiguous(services, center)
  {
    if Contiguous(services, center) {
      forall s ensures multiset(AllServices(center, around))[s] == multiset(services)[s] {
        ContiguousDraws(services, center, around, s);
      }
    }
    if multiset(AllServices(center, around)) == multiset(services) {
      if center.Some? {
        DrawnAlone(services, center.value, around);
      }
      forall layer | layer in OuterLayers(services, center) ensures 1 <= layer <= |OuterLayers(services, center)| {
        var s :| s in services && !(center.Some? && s.layer == center.value.layer) && s.layer == layer;
        assert multiset(services)[s] > 0;
        TotalCount(center, around, s);
      }
    }
  }
}
