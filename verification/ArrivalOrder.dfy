/** Whether a pod is identified before or after the traffic that reaches it does
    not matter: the dependency relation is a function of the accepted traffic
    and the pods identified so far. */
module ArrivalOrder {
  import opened Bags
  import opened Graph
  import opened Hosts
  import opened Ingestion
  import Healing

  /** Who a pod is: the node it stands for, and the name of the Kubernetes
      service in front of it, empty if there is none. */
  datatype Identity = Identity(node: NodeId, service: string)

  /** The identity of each pod IP, fixed for a whole run. */
  type Directory = map<string, Identity>

  type Pair = (NodeId, NodeId)

  /** A source and a destination IP. */
  type Call = (string, string)

  function NodeOf(directory: Directory, ip: string): NodeId {
    if ip in directory then directory[ip].node else Stale(ip)
  }

  /** The name an edge key gives to a destination that is this pod. */
  function TargetService(identity: Identity): string {
    if identity.service != "" then identity.service else identity.node.applicationName
  }

  /** Names as Kubernetes allows them, and no pod in namespace "unknown". */
  ghost predicate Proper(directory: Directory) {
    forall ip :: ip in directory ==>
      var id := directory[ip];
      && id.node.applicationName != "" && id.node.namespace != UNKNOWN
      && '/' !in id.node.namespace && ' ' !in id.service
  }

  /** Namespace and service name fix the application, for the service name as
      it is (of callers) and with the application in place of an empty one (of
      callees). */
  ghost predicate Determined(directory: Directory) {
    forall ip, other :: ip in directory && other in directory ==>
      var id, id' := directory[ip], directory[other];
      && id.node.namespace == id'.node.namespace
      && (id.service == id'.service || TargetService(id) == TargetService(id')) ==>
        id.node == id'.node
  }

  /** What interleaving needs besides: seen from a third pod, a service name
      alone fixes the node behind it, and it is no address but the pod's own. */
  ghost predicate Unambiguous(directory: Directory) {
    forall source, ip :: source in directory && ip in directory && source != ip && directory[ip].service != "" ==>
      && (forall other :: other in directory && other != source && directory[other].service == directory[ip].service ==>
            directory[other].node == directory[ip].node)
      && (IsIpv4(directory[ip].service) ==> directory[ip].service == ip || directory[ip].service == source)
  }

  /** The directories whose edge keys keep dependencies apart. */
  ghost predicate Faithful(racing: bool, directory: Directory) {
    Determined(directory) && (racing ==> Unambiguous(directory))
  }

  /** A pod record that agrees with the directory. */
  ghost predicate Conforms(directory: Directory, ip: string, info: PodInfo) {
    ip in directory && directory[ip] == Identity(NodeId(info.applicationName, info.namespace), info.serviceName)
  }

  ghost predicate PodsConform(directory: Directory, pods: map<string, PodInfo>) {
    forall ip :: ip in pods ==> Conforms(directory, ip, pods[ip])
  }

  /** The node a destination IP stands for, given the pods known so far. */
  function Now(directory: Directory, known: set<string>, ip: string): NodeId {
    if ip in known then NodeOf(directory, ip) else Stale(ip)
  }

  /** The same for a node: raw IPs identified meanwhile are looked through. */
  function NowId(directory: Directory, known: set<string>, id: NodeId): NodeId {
    if id.namespace == UNKNOWN then Now(directory, known, id.applicationName) else id
  }

  ghost function View(directory: Directory, known: set<string>, pairs: set<Pair>): set<Pair> {
    set p | p in pairs :: (p.0, NowId(directory, known, p.1))
  }

  /** The dependency a call stands for. */
  function Meant(directory: Directory, known: set<string>, call: Call): Pair {
    (NodeOf(directory, call.0), Now(directory, known, call.1))
  }

  ghost function Expected(directory: Directory, known: set<string>, calls: set<Call>): set<Pair> {
    set call | call in calls :: Meant(directory, known, call)
  }

  lemma Prefix(a: string, c: char, x: string, b: string, y: string)
    requires a + [c] + x == b + [c] + y && c !in a && c !in b
    ensures a == b && x == y
  {
    var s := a + [c] + x;
    assert s[|a|] == c && s[|b|] == c;
    assert s[..|a|] == a && s[..|b|] == b;
    assert s[|a| + 1..] == x && s[|b| + 1..] == y;
  }

  /** Edge keys are unambiguous for names as Kubernetes allows them. */
  lemma EdgeKeyInjective(ns1: string, s1: string, ns2: string, s2: string,
                         ns1': string, s1': string, ns2': string, s2': string)
    requires EdgeKey(ns1, s1, ns2, s2) == EdgeKey(ns1', s1', ns2', s2')
    requires '/' !in ns1 && '/' !in ns1' && ' ' !in s1 && ' ' !in s1' && '/' !in ns2 && '/' !in ns2'
    ensures ns1 == ns1' && s1 == s1' && ns2 == ns2' && s2 == s2'
  {
    var t, t' := ns2 + "/" + s2, ns2' + "/" + s2';
    var u, u' := s1 + [' '] + ("-> " + t), s1' + [' '] + ("-> " + t');
    assert EdgeKey(ns1, s1, ns2, s2) == ns1 + ['/'] + u;
    assert EdgeKey(ns1', s1', ns2', s2') == ns1' + ['/'] + u';
    Prefix(ns1, '/', u, ns1', u');
    Prefix(s1, ' ', "-> " + t, s1', "-> " + t');
    assert t == ("-> " + t)[3..] == ("-> " + t')[3..] == t';
    Prefix(ns2, '/', s2, ns2', s2');
  }

  /** Exactly which names share a key: reading from the left, the first names
      that differ continue across a separator. */
  lemma EdgeKeysCollideIff(ns1: string, s1: string, ns2: string, s2: string,
                           ns1': string, s1': string, ns2': string, s2': string)
    ensures var target, target' := ns2 + "/" + s2, ns2' + "/" + s2';
            var rest, rest' := s1 + " -> " + target, s1' + " -> " + target';
            EdgeKey(ns1, s1, ns2, s2) == EdgeKey(ns1', s1', ns2', s2') <==>
              || Meets(ns1, rest, '/', ns1', rest')
              || (ns1 == ns1' && Meets(s1, "-> " + target, ' ', s1', "-> " + target'))
              || (ns1 == ns1' && s1 == s1' && Meets(ns2, s2, '/', ns2', s2'))
              || (ns1 == ns1' && s1 == s1' && ns2 == ns2' && s2 == s2')
  {
    var target, target' := ns2 + "/" + s2, ns2' + "/" + s2';
    var rest, rest' := s1 + " -> " + target, s1' + " -> " + target';
    assert EdgeKey(ns1, s1, ns2, s2) == ns1 + ['/'] + rest && EdgeKey(ns1', s1', ns2', s2') == ns1' + ['/'] + rest';
    assert rest == s1 + [' '] + ("-> " + target) && rest' == s1' + [' '] + ("-> " + target');
    assert target == ns2 + ['/'] + s2 && target' == ns2' + ['/'] + s2';
    SeparatedEqual(ns1, rest, '/', ns1', rest');
    SeparatedEqual(s1, "-> " + target, ' ', s1', "-> " + target');
    SeparatedEqual(ns2, s2, '/', ns2', s2');
    assert ("-> " + target)[3..] == target && ("-> " + target')[3..] == target';
  }

  ghost predicate Meets(a: string, x: string, c: char, b: string, y: string) {
    Overlaps(a, x, c, b, y) || Overlaps(b, y, c, a, x)
  }

  /** For instance these, neither of which Kubernetes would allow. */
  lemma EdgeKeysCollide()
    ensures EdgeKey("a", "b -> c/d", "e", "f") == EdgeKey("a", "b", "c", "d -> e/f")
  {
  }

  /** The namespace and service a key may give to the destination of a call: the
      raw IP; what the pod is identified as; and, when the pod was identified
      between two reads of a task, the raw namespace and the service name. */
  ghost predicate TargetFits(racing: bool, directory: Directory, known: set<string>, call: Call,
                             namespace: string, service: string) {
    var ip := call.1;
    || (namespace == UNKNOWN && service == ip && call.0 != ip)
    || (ip in known && ip in directory
        && namespace == directory[ip].node.namespace && service == TargetService(directory[ip]))
    || (racing && ip in known && ip in directory && call.0 != ip
        && namespace == UNKNOWN && service == directory[ip].service != "")
  }

  /** The keys a call may be claimed under, given the pods known so far. */
  ghost predicate KeyFits(racing: bool, directory: Directory, known: set<string>, call: Call, key: string) {
    && call.0 in known && call.0 in directory && IsIpv4(call.1)
    && exists namespace, service :: TargetFits(racing, directory, known, call, namespace, service)
         && key == EdgeKey(directory[call.0].node.namespace, directory[call.0].service, namespace, service)
  }

  lemma KeyTarget(racing: bool, directory: Directory, known: set<string>, call: Call, key: string)
    returns (namespace: string, service: string)
    requires KeyFits(racing, directory, known, call, key) && Proper(directory)
    ensures TargetFits(racing, directory, known, call, namespace, service) && '/' !in namespace
    ensures key == EdgeKey(directory[call.0].node.namespace, directory[call.0].service, namespace, service)
  {
    namespace, service :| TargetFits(racing, directory, known, call, namespace, service)
      && key == EdgeKey(directory[call.0].node.namespace, directory[call.0].service, namespace, service);
  }

  /** Two raw or two identified destinations of one name. */
  lemma SamePlainTarget(directory: Directory, known: set<string>, call: Call, other: Call,
                        namespace: string, service: string)
    requires Proper(directory) && Determined(directory)
    requires TargetFits(false, directory, known, call, namespace, service)
    requires TargetFits(false, directory, known, other, namespace, service)
    ensures Now(directory, known, call.1) == Now(directory, known, other.1)
  {
  }

  /** A destination caught between two reads, against a destination of any kind. */
  lemma SameMixedTarget(directory: Directory, known: set<string>, call: Call, other: Call)
    requires Proper(directory) && Unambiguous(directory)
    requires call.0 in known && call.0 in directory && other.0 in known && other.0 in directory
    requires directory[call.0].node == directory[other.0].node && IsIpv4(other.1)
    requires call.1 in known && call.1 in directory && call.0 != call.1 && directory[call.1].service != ""
    requires TargetFits(true, directory, known, other, UNKNOWN, directory[call.1].service)
    ensures Now(directory, known, call.1) == Now(directory, known, other.1)
  {
    if other.0 == call.1 && call.0 == other.1 {
      assert directory[other.1].node == directory[call.1].node;
    } else if call.0 == other.1 {
      assert other.0 != call.1 && other.0 != other.1;
    }
  }

  lemma SameTarget(racing: bool, directory: Directory, known: set<string>, call: Call, other: Call,
                   namespace: string, service: string)
    requires Proper(directory) && Faithful(racing, directory)
    requires call.0 in known && call.0 in directory && other.0 in known && other.0 in directory
    requires directory[call.0].node == directory[other.0].node && IsIpv4(call.1) && IsIpv4(other.1)
    requires TargetFits(racing, directory, known, call, namespace, service)
    requires TargetFits(racing, directory, known, other, namespace, service)
    ensures Now(directory, known, call.1) == Now(directory, known, other.1)
  {
    if !TargetFits(false, directory, known, call, namespace, service) {
      SameMixedTarget(directory, known, call, other);
    } else if !TargetFits(false, directory, known, other, namespace, service) {
      SameMixedTarget(directory, known, other, call);
    } else {
      SamePlainTarget(directory, known, call, other, namespace, service);
    }
  }

  /** In a faithful directory, calls that fit the same key stand for the same
      dependency. */
  lemma SameKey(racing: bool, directory: Directory, known: set<string>, call: Call, other: Call, key: string)
    requires Proper(directory) && Faithful(racing, directory)
    requires KeyFits(racing, directory, known, call, key) && KeyFits(racing, directory, known, other, key)
    ensures Meant(directory, known, call) == Meant(directory, known, other)
  {
    var namespace, service := KeyTarget(racing, directory, known, call, key);
    var namespace', service' := KeyTarget(racing, directory, known, other, key);
    var source, source' := directory[call.0], directory[other.0];
    EdgeKeyInjective(source.node.namespace, source.service, namespace, service,
                     source'.node.namespace, source'.service, namespace', service');
    SameTarget(racing, directory, known, call, other, namespace, service);
  }

  /** A key taken by a call whose dependency is depicted. */
  ghost predicate Supported(racing: bool, directory: Directory, known: set<string>, view: set<Pair>, calls: set<Call>,
                            key: string) {
    exists call :: call in calls && KeyFits(racing, directory, known, call, key)
                && Meant(directory, known, call) in view
  }

  /** What ties the dependency relation to the calls counted so far: it depicts
      nothing else, every taken key has its dependency, and in a faithful
      directory nothing is missing. */
  ghost predicate Tracks(racing: bool, directory: Directory, known: set<string>, pairs: set<Pair>, seen: set<string>,
                         calls: set<Call>) {
    var view := View(directory, known, pairs);
    && known <= directory.Keys
    && (forall call :: call in calls ==> call.0 in known)
    && (forall key :: key in seen ==> Supported(racing, directory, known, view, calls, key))
    && view <= Expected(directory, known, calls)
    && (Faithful(racing, directory) ==> view == Expected(directory, known, calls))
  }

  lemma SupportedGrows(racing: bool, directory: Directory, known: set<string>, view: set<Pair>, calls: set<Call>,
                       view': set<Pair>, calls': set<Call>, key: string)
    requires Supported(racing, directory, known, view, calls, key) && view <= view' && calls <= calls'
    ensures Supported(racing, directory, known, view', calls', key)
  {
    var call :| call in calls && KeyFits(racing, directory, known, call, key) && Meant(directory, known, call) in view;
    assert call in calls' && Meant(directory, known, call) in view';
  }

  lemma ExpectedAdd(directory: Directory, known: set<string>, calls: set<Call>, call: Call)
    ensures Expected(directory, known, calls + {call})
         == Expected(directory, known, calls) + {Meant(directory, known, call)}
  {
  }

  lemma ViewUnion(directory: Directory, known: set<string>, left: set<Pair>, right: set<Pair>)
    ensures View(directory, known, left + right) == View(directory, known, left) + View(directory, known, right)
  {
  }

  lemma ViewAdd(directory: Directory, known: set<string>, pairs: set<Pair>, pair: Pair)
    ensures View(directory, known, pairs + {pair})
         == View(directory, known, pairs) + {(pair.0, NowId(directory, known, pair.1))}
  {
  }

  /** A call whose key is new adds its pair. */
  lemma Won(racing: bool, directory: Directory, known: set<string>, pairs: set<Pair>, seen: set<string>,
            calls: set<Call>, call: Call, key: string, pair: Pair)
    requires Tracks(racing, directory, known, pairs, seen, calls)
    requires KeyFits(racing, directory, known, call, key)
    requires (pair.0, NowId(directory, known, pair.1)) == Meant(directory, known, call)
    ensures Tracks(racing, directory, known, pairs + {pair}, seen + {key}, calls + {call})
  {
    var view, view' := View(directory, known, pairs), View(directory, known, pairs + {pair});
    ViewAdd(directory, known, pairs, pair);
    ExpectedAdd(directory, known, calls, call);
    forall k | k in seen + {key} ensures Supported(racing, directory, known, view', calls + {call}, k) {
      if k in seen {
        SupportedGrows(racing, directory, known, view, calls, view', calls + {call}, k);
      } else {
        assert call in calls + {call} && Meant(directory, known, call) in view';
      }
    }
  }

  /** A call whose key is taken depends, in a faithful directory, on a pair that
      is already there. */
  lemma Lost(racing: bool, directory: Directory, known: set<string>, pairs: set<Pair>, seen: set<string>,
             calls: set<Call>, call: Call, key: string)
    requires Tracks(racing, directory, known, pairs, seen, calls) && Proper(directory)
    requires key in seen && KeyFits(racing, directory, known, call, key)
    ensures Tracks(racing, directory, known, pairs, seen, calls + {call})
  {
    var view := View(directory, known, pairs);
    ExpectedAdd(directory, known, calls, call);
    if Faithful(racing, directory) {
      var other :| other in calls && KeyFits(racing, directory, known, other, key)
                && Meant(directory, known, other) in view;
      SameKey(racing, directory, known, call, other, key);
    }
    forall k | k in seen ensures Supported(racing, directory, known, view, calls + {call}, k) {
      SupportedGrows(racing, directory, known, view, calls, view, calls + {call}, k);
    }
  }

  lemma NowIdGrows(directory: Directory, known: set<string>, ip: string, id: NodeId)
    requires Proper(directory) && known <= directory.Keys && ip in directory
    ensures NowId(directory, known + {ip}, NowId(directory, known, id)) == NowId(directory, known + {ip}, id)
  {
  }

  lemma ViewGrows(directory: Directory, known: set<string>, ip: string, pairs: set<Pair>)
    requires Proper(directory) && known <= directory.Keys && ip in directory
    ensures View(directory, known + {ip}, View(directory, known, pairs)) == View(directory, known + {ip}, pairs)
  {
    var known' := known + {ip};
    forall p | p in pairs
      ensures (p.0, NowId(directory, known', p.1)) in View(directory, known', View(directory, known, pairs))
    {
      NowIdGrows(directory, known, ip, p.1);
      var q := (p.0, NowId(directory, known, p.1));
      assert q in View(directory, known, pairs);
      assert (q.0, NowId(directory, known', q.1)) in View(directory, known', View(directory, known, pairs));
    }
    forall q | q in View(directory, known, pairs)
      ensures (q.0, NowId(directory, known', q.1)) in View(directory, known', pairs)
    {
      var p :| p in pairs && q == (p.0, NowId(directory, known, p.1));
      NowIdGrows(directory, known, ip, p.1);
    }
  }

  lemma MeantGrows(directory: Directory, known: set<string>, ip: string, call: Call)
    requires Proper(directory) && known <= directory.Keys && ip in directory
    ensures var before, after := Meant(directory, known, call), Meant(directory, known + {ip}, call);
            after == (before.0, NowId(directory, known + {ip}, before.1))
  {
    NowIdGrows(directory, known, ip, Stale(call.1));
  }

  lemma ExpectedGrows(directory: Directory, known: set<string>, ip: string, calls: set<Call>)
    requires Proper(directory) && known <= directory.Keys && ip in directory
    ensures View(directory, known + {ip}, Expected(directory, known, calls)) == Expected(directory, known + {ip}, calls)
  {
    var known' := known + {ip};
    forall call | call in calls
      ensures Meant(directory, known', call) in View(directory, known', Expected(directory, known, calls))
    {
      MeantGrows(directory, known, ip, call);
      assert Meant(directory, known, call) in Expected(directory, known, calls);
    }
    forall q | q in Expected(directory, known, calls)
      ensures (q.0, NowId(directory, known', q.1)) in Expected(directory, known', calls)
    {
      var call :| call in calls && q == Meant(directory, known, call);
      MeantGrows(directory, known, ip, call);
    }
  }

  lemma KeyFitsGrows(racing: bool, directory: Directory, known: set<string>, known': set<string>, call: Call,
                     key: string)
    requires KeyFits(racing, directory, known, call, key) && known <= known'
    ensures KeyFits(racing, directory, known', call, key)
  {
    var namespace, service :| TargetFits(racing, directory, known, call, namespace, service)
      && key == EdgeKey(directory[call.0].node.namespace, directory[call.0].service, namespace, service);
    assert TargetFits(racing, directory, known', call, namespace, service);
  }

  lemma SupportedIdentified(racing: bool, directory: Directory, known: set<string>, pairs: set<Pair>, calls: set<Call>,
                            ip: string, key: string)
    requires Proper(directory) && known <= directory.Keys && ip in directory
    requires Supported(racing, directory, known, View(directory, known, pairs), calls, key)
    ensures Supported(racing, directory, known + {ip}, View(directory, known + {ip}, pairs), calls, key)
  {
    var view := View(directory, known, pairs);
    var call :| call in calls && KeyFits(racing, directory, known, call, key) && Meant(directory, known, call) in view;
    KeyFitsGrows(racing, directory, known, known + {ip}, call, key);
    MeantGrows(directory, known, ip, call);
    ViewGrows(directory, known, ip, pairs);
    assert Meant(directory, known + {ip}, call) in View(directory, known + {ip}, view);
  }

  /** Identifying a pod re-reads every pair and every call alike. */
  lemma Identified(racing: bool, directory: Directory, known: set<string>, pairs: set<Pair>, seen: set<string>,
                   calls: set<Call>, ip: string)
    requires Tracks(racing, directory, known, pairs, seen, calls) && Proper(directory) && ip in directory
    ensures Tracks(racing, directory, known + {ip}, pairs, seen, calls)
  {
    ViewGrows(directory, known, ip, pairs);
    ExpectedGrows(directory, known, ip, calls);
    forall key | key in seen
      ensures Supported(racing, directory, known + {ip}, View(directory, known + {ip}, pairs), calls, key)
    {
      SupportedIdentified(racing, directory, known, pairs, calls, ip, key);
    }
    ViewMonotone(directory, known + {ip}, View(directory, known, pairs), Expected(directory, known, calls));
  }

  lemma ViewMonotone(directory: Directory, known: set<string>, left: set<Pair>, right: set<Pair>)
    requires left <= right
    ensures View(directory, known, left) <= View(directory, known, right)
  {
  }

  ghost function RenamePairs(pairs: set<Pair>, stale: NodeId, resolved: NodeId): set<Pair> {
    set p | p in pairs :: (Rename(p.0, stale, resolved), Rename(p.1, stale, resolved))
  }

  lemma HealedPairs(g: Graph, ip: string, to: NodeId)
    requires Sound(g)
    ensures Pairs(Healing.HealedTo(g, ip, to)) == RenamePairs(Pairs(g), Stale(ip), to)
  {
    var h, rename := Healing.HealedTo(g, ip, to), Renamer(Stale(ip), to);
    Healing.HealedFlowsSound(g, ip, to.applicationName, to.namespace);
    forall p | p in Pairs(h) ensures p in RenamePairs(Pairs(g), Stale(ip), to) {
      var flow :| flow in Flows(h) && p == (flow.source, flow.destination);
      var before := ImageMember(Flows(g), rename, flow);
      var q := (before.source, before.destination);
      assert q in Pairs(g);
    }
    forall q | q in Pairs(g)
      ensures (Rename(q.0, Stale(ip), to), Rename(q.1, Stale(ip), to)) in Pairs(h)
    {
      var before :| before in Flows(g) && q == (before.source, before.destination);
      ImageContains(Flows(g), rename, before);
      var flow := rename(before);
      assert flow in Flows(h);
    }
  }

  /** Healing the raw IP of an identified pod changes no pair's meaning. */
  lemma Resolved(directory: Directory, known: set<string>, pairs: set<Pair>, others: set<Pair>, calls: set<Call>,
                 ip: string)
    requires known <= directory.Keys && Proper(directory) && ip in known
    requires forall call :: call in calls ==> call.0 in known
    requires View(directory, known, pairs + others) <= Expected(directory, known, calls)
    ensures View(directory, known, RenamePairs(pairs, Stale(ip), directory[ip].node) + others)
         == View(directory, known, pairs + others)
  {
    var to := directory[ip].node;
    var renamed := RenamePairs(pairs, Stale(ip), to);
    forall p | p in pairs
      ensures Rename(p.0, Stale(ip), to) == p.0
      ensures NowId(directory, known, Rename(p.1, Stale(ip), to)) == NowId(directory, known, p.1)
    {
      assert (p.0, NowId(directory, known, p.1)) in View(directory, known, pairs + others);
      var call :| call in calls && (p.0, NowId(directory, known, p.1)) == Meant(directory, known, call);
    }
    assert View(directory, known, renamed) == View(directory, known, pairs);
    ViewUnion(directory, known, renamed, others);
    ViewUnion(directory, known, pairs, others);
  }
}
