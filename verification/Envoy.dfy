/** Domain routes from a static Envoy configuration, and the cache they fill. */
module Envoy {
  import opened Graph
  import opened Hosts

  /** A parsed YAML document. */
  datatype Yaml =
    | Null
    | Bool(b: bool)
    | Number(n: int)
    | Text(s: string)
    | Sequence(items: seq<Yaml>)
    | Mapping(entries: map<Yaml, Yaml>)
    | Tagged(tag: string, inner: Yaml)

  datatype Route = Route(domain: string, service: NodeId)

  type Clusters = map<string, NodeId>

  function Untag(y: Yaml): Yaml {
    match y
    case Tagged(tag, inner) => Untag(inner)
    case _ => y
  }

  /** `y[key]`: null where there is no such entry. */
  function Field(y: Yaml, key: string): Yaml {
    match Untag(y)
    case Mapping(entries) => if Text(key) in entries then entries[Text(key)] else Null
    case _ => Null
  }

  /** `y[i]`: null where there is no such item; mappings may have number keys. */
  function Item(y: Yaml, i: nat): Yaml {
    match Untag(y)
    case Sequence(items) => if i < |items| then items[i] else Null
    case Mapping(entries) => if Number(i) in entries then entries[Number(i)] else Null
    case _ => Null
  }

  function AsText(y: Yaml): Option<string> {
    match Untag(y)
    case Text(s) => Some(s)
    case _ => None
  }

  function AsSequence(y: Yaml): Option<seq<Yaml>> {
    match Untag(y)
    case Sequence(items) => Some(items)
    case _ => None
  }

  predicate IsMapping(y: Yaml) { Untag(y).Mapping? }

  function TextOr(y: Yaml, default: string): string {
    if AsText(y).Some? then AsText(y).value else default
  }

  /** The items of a sequence; anything else has none. */
  function Items(y: Yaml): seq<Yaml> {
    if AsSequence(y).Some? then AsSequence(y).value else []
  }

  function ClusterAddress(cluster: Yaml): string {
    var endpoints := Field(Field(cluster, "load_assignment"), "endpoints");
    var endpoint := Field(Item(Field(Item(endpoints, 0), "lb_endpoints"), 0), "endpoint");
    TextOr(Field(Field(Field(endpoint, "address"), "socket_address"), "address"), "")
  }

  /** The service behind a named cluster, if its address shows one. */
  function ClusterService(cluster: Yaml): Option<NodeId> {
    if TextOr(Field(cluster, "name"), "") == "" then None else SvcNamespaceFromFqdn(ClusterAddress(cluster))
  }

  function RouteConfig(filter: Yaml): Yaml {
    var typed, direct := Field(Field(filter, "typed_config"), "route_config"), Field(filter, "route_config");
    if IsMapping(typed) then typed else if IsMapping(direct) then direct else Null
  }

  /** The cluster named by the first route of a virtual host. */
  function HostCluster(host: Yaml): string {
    TextOr(Field(Field(Item(Field(host, "routes"), 0), "route"), "cluster"), "")
  }

  predicate IsWildcard(domain: string) { domain == "*" || "*." <= domain }

  /** One route per parseable cluster. */
  function ClusterRoutes(clusters: seq<Yaml>): seq<Route> {
    if clusters == [] then []
    else
      var last := clusters[|clusters| - 1];
      ClusterRoutes(clusters[..|clusters| - 1])
      + if ClusterService(last).Some? then [Route(ClusterAddress(last), ClusterService(last).value)] else []
  }

  function DomainRoutes(domains: seq<Yaml>, service: NodeId): seq<Route> {
    if domains == [] then []
    else
      var last := AsText(domains[|domains| - 1]);
      DomainRoutes(domains[..|domains| - 1], service)
      + if last.None? || IsWildcard(last.value) then [] else [Route(last.value, service)]
  }

  function HostRoutes(hosts: seq<Yaml>, named: Clusters): seq<Route> {
    if hosts == [] then []
    else
      var last := hosts[|hosts| - 1];
      HostRoutes(hosts[..|hosts| - 1], named)
      + if HostCluster(last) in named then DomainRoutes(Items(Field(last, "domains")), named[HostCluster(last)]) else []
  }

  /** The items listed under `key` in each of `parents`, in order. */
  function Children(parents: seq<Yaml>, key: string): seq<Yaml> {
    if parents == [] then []
    else Children(parents[..|parents| - 1], key) + Items(Field(parents[|parents| - 1], key))
  }

  /** The route configurations of filters, in order. */
  function RouteConfigs(filters: seq<Yaml>): seq<Yaml> {
    seq(|filters|, i requires 0 <= i < |filters| => RouteConfig(filters[i]))
  }

  /** The virtual hosts behind a list of filters, of filter chains, of listeners. */
  function FilterHosts(filters: seq<Yaml>): seq<Yaml> { Children(RouteConfigs(filters), "virtual_hosts") }

  function ChainHosts(chains: seq<Yaml>): seq<Yaml> { FilterHosts(Children(chains, "filters")) }

  function ListenerHosts(listeners: seq<Yaml>): seq<Yaml> { ChainHosts(Children(listeners, "filter_chains")) }

  /** Cluster names with their services; a later cluster of a name wins. */
  function ClusterMap(clusters: seq<Yaml>): Clusters {
    if clusters == [] then map[]
    else
      var last := clusters[|clusters| - 1];
      var front := ClusterMap(clusters[..|clusters| - 1]);
      if ClusterService(last).Some? then front[TextOr(Field(last, "name"), "") := ClusterService(last).value] else front
  }

  function ConfigClusters(config: Yaml): seq<Yaml> { Items(Field(Field(config, "static_resources"), "clusters")) }

  function ConfigListeners(config: Yaml): seq<Yaml> { Items(Field(Field(config, "static_resources"), "listeners")) }

  /** All routes of a configuration, in the order they are emitted. */
  function RoutesOf(config: Yaml): seq<Route> {
    ClusterRoutes(ConfigClusters(config))
      + HostRoutes(ListenerHosts(ConfigListeners(config)), ClusterMap(ConfigClusters(config)))
  }

  method ReadClusters(clusters: seq<Yaml>) returns (routes: seq<Route>, named: Clusters)
    ensures routes == ClusterRoutes(clusters)
    ensures named == ClusterMap(clusters)
  {
    routes, named := [], map[];
    for i := 0 to |clusters|
      invariant routes == ClusterRoutes(clusters[..i])
      invariant named == ClusterMap(clusters[..i])
    {
      var cluster := clusters[i];
      assert clusters[..i + 1][..i] == clusters[..i];
      var name := AsText(Field(cluster, "name"));
      if name.None? || name.value == "" {
        continue;
      }
      var address := ClusterAddress(cluster);
      var service := SvcNamespaceFromFqdn(address);
      if service.Some? {
        routes := routes + [Route(address, service.value)];
        named := named[name.value := service.value];
      }
    }
    assert clusters[..|clusters|] == clusters;
  }

  method ReadDomains(domains: seq<Yaml>, service: NodeId) returns (routes: seq<Route>)
    ensures routes == DomainRoutes(domains, service)
  {
    routes := [];
    for i := 0 to |domains|
      invariant routes == DomainRoutes(domains[..i], service)
    {
      assert domains[..i + 1][..i] == domains[..i];
      var domain := AsText(domains[i]);
      if domain.Some? {
        if domain.value == "*" || "*." <= domain.value {
          continue;
        }
        routes := routes + [Route(domain.value, service)];
      }
    }
    assert domains[..|domains|] == domains;
  }

  method ReadHosts(hosts: seq<Yaml>, named: Clusters) returns (routes: seq<Route>)
    ensures routes == HostRoutes(hosts, named)
  {
    routes := [];
    for i := 0 to |hosts|
      invariant routes == HostRoutes(hosts[..i], named)
    {
      assert hosts[..i + 1][..i] == hosts[..i];
      var name := HostCluster(hosts[i]);
      if name !in named {
        continue;
      }
      var domains := AsSequence(Field(hosts[i], "domains"));
      if domains.None? {
        continue;
      }
      var found := ReadDomains(domains.value, named[name]);
      routes := routes + found;
    }
    assert hosts[..|hosts|] == hosts;
  }

  lemma HostRoutesSplit(first: seq<Yaml>, rest: seq<Yaml>, last: Yaml, named: Clusters)
    requires HostRoutes(first + rest, named) == HostRoutes(first, named) + HostRoutes(rest, named)
    ensures HostRoutes(first + (rest + [last]), named) == HostRoutes(first, named) + HostRoutes(rest + [last], named)
  {
    Regrouped(first, rest, [last]);
    HostRoutesLast(first + rest, last, named);
    HostRoutesLast(rest, last, named);
    Regrouped(HostRoutes(first, named), HostRoutes(rest, named), HostRoutes([last], named));
  }

  lemma Regrouped<T>(a: seq<T>, b: seq<T>, c: seq<T>)
    ensures a + (b + c) == (a + b) + c
  {
  }

  lemma {:induction false} HostRoutesConcat(first: seq<Yaml>, second: seq<Yaml>, named: Clusters)
    ensures HostRoutes(first + second, named) == HostRoutes(first, named) + HostRoutes(second, named)
    decreases |second|
  {
    if second == [] {
      assert first + second == first;
    } else {
      var rest, last := second[..|second| - 1], second[|second| - 1];
      HostRoutesConcat(first, rest, named);
      HostRoutesSplit(first, rest, last, named);
      assert second == rest + [last];
    }
  }

  lemma HostRoutesLast(front: seq<Yaml>, last: Yaml, named: Clusters)
    ensures HostRoutes(front + [last], named) == HostRoutes(front, named) + HostRoutes([last], named)
  {
    assert (front + [last])[..|front|] == front && [last][..0] == [];
  }

  lemma {:induction false} ChildrenConcat(first: seq<Yaml>, second: seq<Yaml>, key: string)
    ensures Children(first + second, key) == Children(first, key) + Children(second, key)
    decreases |second|
  {
    if second == [] {
      assert first + second == first;
    } else {
      var rest, last := second[..|second| - 1], second[|second| - 1];
      calc {
        Children(first + second, key);
        { assert first + second == (first + rest) + [last]; ChildrenLast(first + rest, last, key); }
        Children(first + rest, key) + Children([last], key);
        { ChildrenConcat(first, rest, key); }
        Children(first, key) + Children(rest, key) + Children([last], key);
        { assert second == rest + [last]; ChildrenLast(rest, last, key); }
        Children(first, key) + Children(second, key);
      }
    }
  }

  lemma ChildrenLast(front: seq<Yaml>, last: Yaml, key: string)
    ensures Children(front + [last], key) == Children(front, key) + Children([last], key)
  {
    assert (front + [last])[..|front|] == front && [last][..0] == [];
  }

  lemma FilterHostsConcat(first: seq<Yaml>, second: seq<Yaml>)
    ensures FilterHosts(first + second) == FilterHosts(first) + FilterHosts(second)
  {
    assert RouteConfigs(first + second) == RouteConfigs(first) + RouteConfigs(second);
    ChildrenConcat(RouteConfigs(first), RouteConfigs(second), "virtual_hosts");
  }

  lemma ChainHostsConcat(first: seq<Yaml>, second: seq<Yaml>)
    ensures ChainHosts(first + second) == ChainHosts(first) + ChainHosts(second)
  {
    ChildrenConcat(first, second, "filters");
    FilterHostsConcat(Children(first, "filters"), Children(second, "filters"));
  }

  lemma FilterHostsNext(filters: seq<Yaml>, i: nat, named: Clusters)
    requires i < |filters|
    ensures HostRoutes(FilterHosts(filters[..i + 1]), named)
         == HostRoutes(FilterHosts(filters[..i]), named)
           + HostRoutes(Items(Field(RouteConfig(filters[i]), "virtual_hosts")), named)
  {
    var configs := RouteConfigs(filters[..i + 1]);
    assert configs[..i] == RouteConfigs(filters[..i]) && configs[i] == RouteConfig(filters[i]);
    HostRoutesConcat(FilterHosts(filters[..i]), Items(Field(RouteConfig(filters[i]), "virtual_hosts")), named);
  }

  lemma ChainHostsNext(chains: seq<Yaml>, i: nat, named: Clusters)
    requires i < |chains|
    ensures HostRoutes(ChainHosts(chains[..i + 1]), named)
         == HostRoutes(ChainHosts(chains[..i]), named)
           + HostRoutes(FilterHosts(Items(Field(chains[i], "filters"))), named)
  {
    assert chains[..i + 1][..i] == chains[..i];
    FilterHostsConcat(Children(chains[..i], "filters"), Items(Field(chains[i], "filters")));
    HostRoutesConcat(ChainHosts(chains[..i]), FilterHosts(Items(Field(chains[i], "filters"))), named);
  }

  lemma ListenerHostsNext(listeners: seq<Yaml>, i: nat, named: Clusters)
    requires i < |listeners|
    ensures HostRoutes(ListenerHosts(listeners[..i + 1]), named)
         == HostRoutes(ListenerHosts(listeners[..i]), named)
           + HostRoutes(ChainHosts(Items(Field(listeners[i], "filter_chains"))), named)
  {
    assert listeners[..i + 1][..i] == listeners[..i];
    ChainHostsConcat(Children(listeners[..i], "filter_chains"), Items(Field(listeners[i], "filter_chains")));
    HostRoutesConcat(ListenerHosts(listeners[..i]), ChainHosts(Items(Field(listeners[i], "filter_chains"))), named);
  }

  method ReadFilters(filters: seq<Yaml>, named: Clusters) returns (routes: seq<Route>)
    ensures routes == HostRoutes(FilterHosts(filters), named)
  {
    routes := [];
    for i := 0 to |filters|
      invariant routes == HostRoutes(FilterHosts(filters[..i]), named)
    {
      FilterHostsNext(filters, i, named);
      var items := AsSequence(Field(RouteConfig(filters[i]), "virtual_hosts"));
      if items.None? {
        continue;
      }
      var found := ReadHosts(items.value, named);
      routes := routes + found;
    }
    assert filters[..|filters|] == filters;
  }

  method ReadChains(chains: seq<Yaml>, named: Clusters) returns (routes: seq<Route>)
    ensures routes == HostRoutes(ChainHosts(chains), named)
  {
    routes := [];
    for i := 0 to |chains|
      invariant routes == HostRoutes(ChainHosts(chains[..i]), named)
    {
      ChainHostsNext(chains, i, named);
      var items := AsSequence(Field(chains[i], "filters"));
      if items.None? {
        continue;
      }
      var found := ReadFilters(items.value, named);
      routes := routes + found;
    }
    assert chains[..|chains|] == chains;
  }

  method ReadListeners(listeners: seq<Yaml>, named: Clusters) returns (routes: seq<Route>)
    ensures routes == HostRoutes(ListenerHosts(listeners), named)
  {
    routes := [];
    for i := 0 to |listeners|
      invariant routes == HostRoutes(ListenerHosts(listeners[..i]), named)
    {
      ListenerHostsNext(listeners, i, named);
      var items := AsSequence(Field(listeners[i], "filter_chains"));
      if items.None? {
        continue;
      }
      var found := ReadChains(items.value, named);
      routes := routes + found;
    }
    assert listeners[..|listeners|] == listeners;
  }

  /** Two passes: clusters first, then the virtual hosts of every listener. */
  method ParseEnvoyRoutes(config: Yaml) returns (routes: seq<Route>)
    ensures routes == RoutesOf(config)
  {
    routes := [];
    var named: Clusters := map[];
    var clusters := AsSequence(Field(Field(config, "static_resources"), "clusters"));
    if clusters.Some? {
      routes, named := ReadClusters(clusters.value);
    }
    var listeners := AsSequence(Field(Field(config, "static_resources"), "listeners"));
    if listeners.None? {
      return;
    }
    var found := ReadListeners(listeners.value, named);
    routes := routes + found;
  }

  predicate Names(cluster: Yaml, name: string) { TextOr(Field(cluster, "name"), "") == name }

  /** The cluster declares the name with an address that shows a service. */
  predicate Declares(cluster: Yaml, name: string) { Names(cluster, name) && ClusterService(cluster).Some? }

  function Declaring(name: string): Yaml -> bool { (cluster: Yaml) => Declares(cluster, name) }

  /** The last position of `s` that satisfies `p`. */
  ghost predicate LastWith<T>(s: seq<T>, p: T -> bool, i: int) {
    0 <= i < |s| && p(s[i]) && forall j :: i < j < |s| ==> !p(s[j])
  }

  lemma LastWithNext<T>(s: seq<T>, p: T -> bool, i: int)
    requires s != []
    ensures LastWith(s, p, i) <==> if p(s[|s| - 1]) then i == |s| - 1 else LastWith(s[..|s| - 1], p, i)
  {
  }

  /** A cluster declares the name, with this service, and no later one does. */
  ghost predicate LastCluster(clusters: seq<Yaml>, name: string, service: NodeId) {
    exists i :: LastWith(clusters, Declaring(name), i) && ClusterService(clusters[i]) == Some(service)
  }

  /** The name of a cluster resolves to its last parseable declaration. */
  lemma {:induction false} ClusterMapLast(clusters: seq<Yaml>, name: string, service: NodeId)
    ensures (name in ClusterMap(clusters) && ClusterMap(clusters)[name] == service)
       <==> LastCluster(clusters, name, service)
  {
    if clusters != [] {
      var n := |clusters| - 1;
      var front := clusters[..n];
      ClusterMapLast(front, name, service);
      forall i ensures LastWith(clusters, Declaring(name), i)
                  <==> if Declaring(name)(clusters[n]) then i == n else LastWith(front, Declaring(name), i) {
        LastWithNext(clusters, Declaring(name), i);
      }
      assert LastCluster(clusters, name, service)
        <==> if Declares(clusters[n], name) then ClusterService(clusters[n]) == Some(service)
             else LastCluster(front, name, service);
    }
  }

  ghost predicate Emits(cluster: Yaml, r: Route) {
    ClusterService(cluster) == Some(r.service) && r.domain == ClusterAddress(cluster)
  }

  ghost predicate ClusterEmits(clusters: seq<Yaml>, r: Route) {
    exists i :: 0 <= i < |clusters| && Emits(clusters[i], r)
  }

  ghost predicate DomainEmits(domains: seq<Yaml>, domain: string) {
    !IsWildcard(domain) && exists i :: 0 <= i < |domains| && AsText(domains[i]) == Some(domain)
  }

  /** `child` is listed under `key` in one of `parents`. */
  ghost predicate ListedUnder(parents: seq<Yaml>, key: string, child: Yaml) {
    exists i :: 0 <= i < |parents| && child in Items(Field(parents[i], key))
  }

  lemma {:induction false} ChildrenExact(parents: seq<Yaml>, key: string, child: Yaml)
    ensures child in Children(parents, key) <==> ListedUnder(parents, key, child)
  {
    if parents != [] {
      var n := |parents| - 1;
      var front := parents[..n];
      ChildrenExact(front, key, child);
      ListedLast(front, parents[n], key, child);
      assert parents == front + [parents[n]];
    }
  }

  lemma ListedLast(front: seq<Yaml>, last: Yaml, key: string, child: Yaml)
    ensures ListedUnder(front + [last], key, child)
       <==> ListedUnder(front, key, child) || child in Items(Field(last, key))
  {
    var all := front + [last];
    if i :| 0 <= i < |front| && child in Items(Field(front[i], key)) {
      assert child in Items(Field(all[i], key));
    }
    if child in Items(Field(last, key)) {
      assert child in Items(Field(all[|front|], key));
    }
  }

  /** The virtual hosts read are exactly those below some filter of some chain
      of some listener. */
  ghost predicate HostIn(listeners: seq<Yaml>, host: Yaml) {
    exists chain, filter ::
      && ListedUnder(listeners, "filter_chains", chain)
      && filter in Items(Field(chain, "filters"))
      && host in Items(Field(RouteConfig(filter), "virtual_hosts"))
  }

  lemma FilterHostsExact(filters: seq<Yaml>, host: Yaml)
    ensures host in FilterHosts(filters)
       <==> exists filter :: filter in filters && host in Items(Field(RouteConfig(filter), "virtual_hosts"))
  {
    var configs := RouteConfigs(filters);
    ChildrenExact(configs, "virtual_hosts", host);
    if ListedUnder(configs, "virtual_hosts", host) {
      var i :| 0 <= i < |configs| && host in Items(Field(configs[i], "virtual_hosts"));
      assert filters[i] in filters;
    }
    if filter :| filter in filters && host in Items(Field(RouteConfig(filter), "virtual_hosts")) {
      var i :| 0 <= i < |filters| && filters[i] == filter;
      assert configs[i] == RouteConfig(filter);
    }
  }

  lemma HostsExact(listeners: seq<Yaml>, host: Yaml)
    ensures host in ListenerHosts(listeners) <==> HostIn(listeners, host)
  {
    var chains := Children(listeners, "filter_chains");
    var filters := Children(chains, "filters");
    FilterHostsExact(filters, host);
    if host in ListenerHosts(listeners) {
      var filter :| filter in filters && host in Items(Field(RouteConfig(filter), "virtual_hosts"));
      ChildrenExact(chains, "filters", filter);
      var i :| 0 <= i < |chains| && filter in Items(Field(chains[i], "filters"));
      ChildrenExact(listeners, "filter_chains", chains[i]);
    }
    if HostIn(listeners, host) {
      var chain, filter :| ListedUnder(listeners, "filter_chains", chain) && filter in Items(Field(chain, "filters"))
                        && host in Items(Field(RouteConfig(filter), "virtual_hosts"));
      ChildrenExact(listeners, "filter_chains", chain);
      var i :| 0 <= i < |chains| && chains[i] == chain;
      assert ListedUnder(chains, "filters", filter);
      ChildrenExact(chains, "filters", filter);
    }
  }

  lemma {:induction false} ClusterRoutesExact(clusters: seq<Yaml>, r: Route)
    ensures r in ClusterRoutes(clusters) <==> ClusterEmits(clusters, r)
  {
    if clusters != [] {
      var n := |clusters| - 1;
      var front := clusters[..n];
      ClusterRoutesExact(front, r);
      ClusterEmitsLast(front, clusters[n], r);
      assert clusters == front + [clusters[n]];
    }
  }

  lemma ClusterEmitsLast(front: seq<Yaml>, last: Yaml, r: Route)
    ensures ClusterEmits(front + [last], r) <==> ClusterEmits(front, r) || Emits(last, r)
  {
    var all := front + [last];
    if i :| 0 <= i < |front| && Emits(front[i], r) {
      assert Emits(all[i], r);
    }
    if Emits(last, r) {
      assert Emits(all[|front|], r);
    }
  }

  lemma {:induction false} DomainRoutesExact(domains: seq<Yaml>, service: NodeId, r: Route)
    ensures r in DomainRoutes(domains, service) <==> r.service == service && DomainEmits(domains, r.domain)
  {
    if domains != [] {
      var n := |domains| - 1;
      var front := domains[..n];
      DomainRoutesExact(front, service, r);
      assert DomainEmits(domains, r.domain)
        <==> !IsWildcard(r.domain) && (AsText(domains[n]) == Some(r.domain) || DomainEmits(front, r.domain)) by {
        if DomainEmits(front, r.domain) {
          var i :| 0 <= i < |front| && AsText(front[i]) == Some(r.domain);
          assert domains[i] == front[i];
        }
        if DomainEmits(domains, r.domain) {
          var i :| 0 <= i < |domains| && AsText(domains[i]) == Some(r.domain);
          assert i < n ==> front[i] == domains[i];
        }
      }
    }
  }

  /** What one virtual host contributes. */
  ghost predicate HostEmits(host: Yaml, named: Clusters, r: Route) {
    && HostCluster(host) in named && named[HostCluster(host)] == r.service
    && DomainEmits(Items(Field(host, "domains")), r.domain)
  }

  lemma HostContribution(host: Yaml, named: Clusters, r: Route)
    ensures HostEmits(host, named, r)
       <==> HostCluster(host) in named && r in DomainRoutes(Items(Field(host, "domains")), named[HostCluster(host)])
  {
    if HostCluster(host) in named {
      DomainRoutesExact(Items(Field(host, "domains")), named[HostCluster(host)], r);
    }
  }

  lemma {:induction false} HostRoutesExact(hosts: seq<Yaml>, named: Clusters, r: Route)
    ensures r in HostRoutes(hosts, named) <==> exists host :: host in hosts && HostEmits(host, named, r)
  {
    if hosts != [] {
      var n := |hosts| - 1;
      assert hosts == hosts[..n] + [hosts[n]];
      HostRoutesExact(hosts[..n], named, r);
      HostContribution(hosts[n], named, r);
    }
  }

  /** Sound and complete for every document: a route is emitted exactly when it
      is a parseable cluster's address with its service, or a non-wildcard
      domain of a virtual host with the service of the cluster its first route
      names, where a name means its last parseable declaration. */
  lemma RoutesExact(config: Yaml, r: Route)
    ensures r in RoutesOf(config)
       <==> || ClusterEmits(ConfigClusters(config), r)
            || exists host :: && HostIn(ConfigListeners(config), host)
                              && LastCluster(ConfigClusters(config), HostCluster(host), r.service)
                              && DomainEmits(Items(Field(host, "domains")), r.domain)
  {
    var clusters, listeners := ConfigClusters(config), ConfigListeners(config);
    ClusterRoutesExact(clusters, r);
    HostRoutesExact(ListenerHosts(listeners), ClusterMap(clusters), r);
    forall host
      ensures host in ListenerHosts(listeners) <==> HostIn(listeners, host)
      ensures HostEmits(host, ClusterMap(clusters), r)
         <==> && LastCluster(clusters, HostCluster(host), r.service)
              && DomainEmits(Items(Field(host, "domains")), r.domain)
    {
      HostsExact(listeners, host);
      ClusterMapLast(clusters, HostCluster(host), r.service);
    }
  }

  /** The route cache after a push. */
  function Pushed(cache: map<string, NodeId>, routes: seq<Route>): map<string, NodeId> {
    if routes == [] then cache
    else
      var last := routes[|routes| - 1];
      Pushed(cache, routes[..|routes| - 1])[last.domain := last.service]
  }

  function ForDomain(domain: string): Route -> bool { (r: Route) => r.domain == domain }

  /** A lookup after a push returns the last entry emitted for the domain, and
      what was cached before when there is none. */
  lemma {:induction false} LookupAfterPush(cache: map<string, NodeId>, routes: seq<Route>, domain: string,
                                           service: NodeId)
    ensures (domain in Pushed(cache, routes) && Pushed(cache, routes)[domain] == service)
       <==> || (exists i :: LastWith(routes, ForDomain(domain), i) && routes[i].service == service)
            || ((forall i :: 0 <= i < |routes| ==> routes[i].domain != domain)
                && domain in cache && cache[domain] == service)
  {
    if routes != [] {
      var n := |routes| - 1;
      var front := routes[..n];
      LookupAfterPush(cache, front, domain, service);
      forall i ensures LastWith(routes, ForDomain(domain), i)
                  <==> if routes[n].domain == domain then i == n else LastWith(front, ForDomain(domain), i) {
        LastWithNext(routes, ForDomain(domain), i);
      }
    }
  }
}
