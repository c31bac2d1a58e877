/** Envoy configurations as an operator writes them, printed as YAML: what the
    parser reads back, in terms of what was written. */
module EnvoyPrint {
  import opened Bags
  import opened Graph
  import opened Hosts
  import opened Lists
  import opened Envoy

  /** A cluster with the addresses of its endpoints, locality by locality. */
  datatype Cluster = Cluster(name: Option<string>, localities: seq<seq<string>>)

  /** A virtual host with the cluster of each of its routes; a redirect has none. */
  datatype VirtualHost = VirtualHost(domains: seq<string>, routes: seq<Option<string>>)

  /** A network filter with its route configuration, typed or direct. */
  datatype Filter = Filter(typed: Option<seq<VirtualHost>>, direct: Option<seq<VirtualHost>>)

  type Chain = seq<Filter>

  type Listener = seq<Chain>

  datatype Config = Config(clusters: seq<Cluster>, listeners: seq<Listener>)

  function One(key: string, y: Yaml): Yaml { Mapping(map[Text(key) := y]) }

  function With(y: map<Yaml, Yaml>, key: string, value: Option<Yaml>): map<Yaml, Yaml> {
    if value.Some? then y[Text(key) := value.value] else y
  }

  function PrintText(s: string): Yaml { Text(s) }

  function PrintEndpoint(address: string): Yaml {
    One("endpoint", One("address", One("socket_address", One("address", Text(address)))))
  }

  function PrintLocality(addresses: seq<string>): Yaml {
    One("lb_endpoints", Sequence(MapSeq(addresses, PrintEndpoint)))
  }

  function PrintCluster(c: Cluster): Yaml {
    var endpoints := One("endpoints", Sequence(MapSeq(c.localities, PrintLocality)));
    Mapping(With(map[Text("load_assignment") := endpoints], "name",
                 if c.name.Some? then Some(Text(c.name.value)) else None))
  }

  function PrintRoute(cluster: Option<string>): Yaml {
    if cluster.Some? then One("route", One("cluster", Text(cluster.value))) else Mapping(map[])
  }

  function PrintHost(h: VirtualHost): Yaml {
    Mapping(map[Text("domains") := Sequence(MapSeq(h.domains, PrintText)),
                Text("routes") := Sequence(MapSeq(h.routes, PrintRoute))])
  }

  function PrintHosts(hosts: seq<VirtualHost>): Yaml { One("virtual_hosts", Sequence(MapSeq(hosts, PrintHost))) }

  function PrintFilter(f: Filter): Yaml {
    var typed := if f.typed.Some? then Some(One("route_config", PrintHosts(f.typed.value))) else None;
    var direct := if f.direct.Some? then Some(PrintHosts(f.direct.value)) else None;
    Mapping(With(With(map[], "typed_config", typed), "route_config", direct))
  }

  function PrintChain(chain: Chain): Yaml { One("filters", Sequence(MapSeq(chain, PrintFilter))) }

  function PrintListener(listener: Listener): Yaml {
    One("filter_chains", Sequence(MapSeq(listener, PrintChain)))
  }

  function Print(config: Config): Yaml {
    One("static_resources",
        Mapping(map[Text("clusters") := Sequence(MapSeq(config.clusters, PrintCluster)),
                    Text("listeners") := Sequence(MapSeq(config.listeners, PrintListener))]))
  }

  /** The first address of the first locality. */
  ghost function Address(c: Cluster): string {
    if c.localities == [] || c.localities[0] == [] then "" else c.localities[0][0]
  }

  /** The first "svc" label of the address comes after a service and a namespace. */
  ghost predicate ShowsService(address: string, service: NodeId) { ShownBy(Split(address, '.'), service) }

  ghost predicate ShownBy(labels: seq<string>, service: NodeId) {
    exists p :: && FirstSvc(labels, p) && 2 <= p
                && service.applicationName == labels[p - 2] && service.namespace == labels[p - 1]
  }

  ghost predicate FirstSvc(labels: seq<string>, p: nat) {
    p < |labels| && labels[p] == "svc" && "svc" !in labels[..p]
  }

  /** The cluster has a name, and its address shows the service. */
  ghost predicate Serves(c: Cluster, name: string, service: NodeId) {
    c.name == Some(name) && name != "" && ShowsService(Address(c), service)
  }

  /** The route a cluster stands for: its address leads to its service. */
  ghost predicate AddressRoute(c: Cluster, r: Route) {
    r.domain == Address(c) && c.name.Some? && Serves(c, c.name.value, r.service)
  }

  ghost function ByAddress(): (Cluster, Route) -> bool { (c, r) => AddressRoute(c, r) }

  /** The service a cluster name stands for: that of its last cluster that shows
      one. */
  ghost predicate Resolves(clusters: seq<Cluster>, name: string, service: NodeId) {
    exists i :: && 0 <= i < |clusters| && Serves(clusters[i], name, service)
                && forall j, other :: i < j < |clusters| ==> !Serves(clusters[j], name, other)
  }

  /** The virtual hosts of a filter: the typed configuration comes first. */
  function HostsOf(f: Filter): seq<VirtualHost> {
    if f.typed.Some? then f.typed.value else if f.direct.Some? then f.direct.value else []
  }

  /** All virtual hosts, listener by listener, chain by chain. */
  function AllHosts(listeners: seq<Listener>): seq<VirtualHost> {
    Flatten(MapSeq(Flatten(Flatten(listeners)), HostsOf))
  }

  /** A domain, with the routes of its virtual host. */
  datatype Domain = Domain(name: string, routes: seq<Option<string>>)

  function DomainsOf(h: VirtualHost): seq<Domain> {
    seq(|h.domains|, i requires 0 <= i < |h.domains| => Domain(h.domains[i], h.routes))
  }

  function AllDomains(hosts: seq<VirtualHost>): seq<Domain> { Flatten(MapSeq(hosts, DomainsOf)) }

  /** The route a domain stands for: unless it is a wildcard, it leads to the
      service of the cluster of the first route. */
  ghost predicate DomainRoute(clusters: seq<Cluster>, d: Domain, r: Route) {
    && r.domain == d.name && d.name != "*" && !(|d.name| >= 2 && d.name[0] == '*' && d.name[1] == '.')
    && d.routes != [] && d.routes[0].Some? && Resolves(clusters, d.routes[0].value, r.service)
  }

  ghost function ByDomain(clusters: seq<Cluster>): (Domain, Route) -> bool { (d, r) => DomainRoute(clusters, d, r) }

  lemma FieldOfOne(key: string, y: Yaml)
    ensures Field(One(key, y), key) == y
  {
  }

  lemma EndpointAddress(address: string)
    ensures var endpoint := Field(PrintEndpoint(address), "endpoint");
            TextOr(Field(Field(Field(endpoint, "address"), "socket_address"), "address"), "") == address
  {
    FieldOfOne("address", Text(address));
    FieldOfOne("socket_address", One("address", Text(address)));
    FieldOfOne("address", One("socket_address", One("address", Text(address))));
    FieldOfOne("endpoint", One("address", One("socket_address", One("address", Text(address)))));
  }

  lemma ClusterFields(c: Cluster)
    ensures AsText(Field(PrintCluster(c), "name")) == c.name
    ensures Field(PrintCluster(c), "load_assignment")
         == One("endpoints", Sequence(MapSeq(c.localities, PrintLocality)))
  {
    assert "name"[0] != "load_assignment"[0];
  }

  lemma NullField(key: string)
    ensures Field(Null, key) == Null && Item(Null, 0) == Null && TextOr(Null, "") == ""
  {
  }

  lemma AddressRead(c: Cluster)
    ensures ClusterAddress(PrintCluster(c)) == Address(c)
  {
    ClusterFields(c);
    var localities := Sequence(MapSeq(c.localities, PrintLocality));
    FieldOfOne("endpoints", localities);
    NullField("lb_endpoints");
    NullField("endpoint");
    NullField("address");
    NullField("socket_address");
    if c.localities != [] {
      assert Item(localities, 0) == PrintLocality(c.localities[0]);
      var endpoints := Sequence(MapSeq(c.localities[0], PrintEndpoint));
      FieldOfOne("lb_endpoints", endpoints);
      if c.localities[0] != [] {
        assert Item(endpoints, 0) == PrintEndpoint(c.localities[0][0]);
        EndpointAddress(c.localities[0][0]);
      } else {
        assert Item(endpoints, 0) == Null;
      }
    } else {
      assert Item(localities, 0) == Null;
    }
  }

  lemma {:induction false} FirstIndex(s: seq<string>, c: string, p: nat)
    requires p < |s| && s[p] == c && c !in s[..p]
    ensures IndexOf(s, c) == p
  {
    if p > 0 {
      assert s[0] == s[..p][0];
      assert s[..p] == [s[0]] + s[1..][..p - 1];
      FirstIndex(s[1..], c, p - 1);
    }
  }

  lemma FirstSvcIndex(labels: seq<string>, p: nat)
    ensures FirstSvc(labels, p) <==> p < |labels| && p == IndexOf(labels, "svc")
  {
    if FirstSvc(labels, p) {
      FirstIndex(labels, "svc", p);
    }
  }

  lemma LabelsShow(labels: seq<string>, service: NodeId)
    ensures (var p := IndexOf(labels, "svc");
             2 <= p < |labels| && service.applicationName == labels[p - 2] && service.namespace == labels[p - 1])
       <==> ShownBy(labels, service)
  {
    FirstSvcIndex(labels, IndexOf(labels, "svc"));
    if p :| && FirstSvc(labels, p) && 2 <= p
            && service.applicationName == labels[p - 2] && service.namespace == labels[p - 1] {
      FirstSvcIndex(labels, p);
    }
  }

  lemma ServiceShown(address: string, service: NodeId)
    ensures SvcNamespaceFromFqdn(address) == Some(service) <==> ShowsService(address, service)
  {
    LabelsShow(Split(address, '.'), service);
  }

  lemma ClusterRead(c: Cluster, name: string, service: NodeId)
    ensures Names(PrintCluster(c), name) && ClusterService(PrintCluster(c)) == Some(service)
       <==> Serves(c, name, service)
    ensures Emits(PrintCluster(c), Route(Address(c), service)) <==> AddressRoute(c, Route(Address(c), service))
  {
    ClusterFields(c);
    AddressRead(c);
    ServiceShown(Address(c), service);
  }

  /** What one cluster adds to the routes. */
  function AddressFound(c: Cluster): seq<Route> {
    var service := ClusterService(PrintCluster(c));
    if service.Some? then [Route(ClusterAddress(PrintCluster(c)), service.value)] else []
  }

  lemma ClusterGives(c: Cluster, r: Route)
    ensures ByAddress()(c, r) <==> r.domain == Address(c) && ClusterService(PrintCluster(c)) == Some(r.service)
  {
    AddressRead(c);
    ClusterRead(c, "", r.service);
  }

  lemma AddressNext(front: seq<Cluster>, c: Cluster, routes: seq<Route>)
    requires InOrder(front, routes, ByAddress())
    ensures InOrder(front + [c], routes + AddressFound(c), ByAddress())
  {
    var service := ClusterService(PrintCluster(c));
    AddressRead(c);
    if service.Some? {
      ClusterGives(c, Route(Address(c), service.value));
      InOrderTake(front, routes, c, Route(Address(c), service.value), ByAddress());
    } else {
      forall r ensures !ByAddress()(c, r) {
        ClusterGives(c, r);
      }
      InOrderSkip(front, routes, c, ByAddress());
      assert routes + AddressFound(c) == routes;
    }
  }

  lemma ClustersLast(clusters: seq<Cluster>)
    requires clusters != []
    ensures var n := |clusters| - 1;
            && clusters == clusters[..n] + [clusters[n]]
            && ClusterRoutes(MapSeq(clusters, PrintCluster))
               == ClusterRoutes(MapSeq(clusters[..n], PrintCluster)) + AddressFound(clusters[n])
  {
    var n := |clusters| - 1;
    assert MapSeq(clusters, PrintCluster)[..n] == MapSeq(clusters[..n], PrintCluster);
  }

  /** The first pass reads the addresses that show a service, in order. */
  lemma {:induction false} AddressesRead(clusters: seq<Cluster>)
    ensures InOrder(clusters, ClusterRoutes(MapSeq(clusters, PrintCluster)), ByAddress())
  {
    if clusters != [] {
      var n := |clusters| - 1;
      AddressesRead(clusters[..n]);
      AddressNext(clusters[..n], clusters[n], ClusterRoutes(MapSeq(clusters[..n], PrintCluster)));
      ClustersLast(clusters);
    }
  }

  lemma DeclaresRead(c: Cluster, name: string)
    ensures Declares(PrintCluster(c), name) <==> exists service :: Serves(c, name, service)
  {
    if Declares(PrintCluster(c), name) {
      ClusterRead(c, name, ClusterService(PrintCluster(c)).value);
    }
    if service :| Serves(c, name, service) {
      ClusterRead(c, name, service);
    }
  }

  lemma LastRead(clusters: seq<Cluster>, name: string, i: nat)
    requires i < |clusters|
    ensures (forall j :: i < j < |clusters| ==> !Declaring(name)(MapSeq(clusters, PrintCluster)[j]))
       <==> (forall j, other :: i < j < |clusters| ==> !Serves(clusters[j], name, other))
  {
    forall j | i < j < |clusters|
      ensures Declaring(name)(MapSeq(clusters, PrintCluster)[j]) <==> exists other :: Serves(clusters[j], name, other)
    {
      DeclaresRead(clusters[j], name);
    }
  }

  lemma PositionRead(clusters: seq<Cluster>, name: string, service: NodeId, i: nat)
    requires i < |clusters|
    ensures (var printed := MapSeq(clusters, PrintCluster);
             LastWith(printed, Declaring(name), i) && ClusterService(printed[i]) == Some(service))
       <==> && Serves(clusters[i], name, service)
            && forall j, other :: i < j < |clusters| ==> !Serves(clusters[j], name, other)
  {
    ClusterRead(clusters[i], name, service);
    LastRead(clusters, name, i);
  }

  /** Cluster names are resolved as written. */
  lemma NamesRead(clusters: seq<Cluster>, name: string, service: NodeId)
    ensures (var named := ClusterMap(MapSeq(clusters, PrintCluster)); name in named && named[name] == service)
       <==> Resolves(clusters, name, service)
  {
    var printed := MapSeq(clusters, PrintCluster);
    ClusterMapLast(printed, name, service);
    if LastCluster(printed, name, service) {
      var i :| LastWith(printed, Declaring(name), i) && ClusterService(printed[i]) == Some(service);
      PositionRead(clusters, name, service, i);
    }
    if Resolves(clusters, name, service) {
      var i :| && 0 <= i < |clusters| && Serves(clusters[i], name, service)
               && forall j, other :: i < j < |clusters| ==> !Serves(clusters[j], name, other);
      PositionRead(clusters, name, service, i);
    }
  }

  /** The printed children of printed parents. */
  lemma {:induction false} ChildrenRead<S, T>(parents: seq<S>, show: S -> Yaml, key: string, children: S -> seq<T>,
                                              showChild: T -> Yaml)
    requires forall i :: 0 <= i < |parents| ==>
               Items(Field(show(parents[i]), key)) == MapSeq(children(parents[i]), showChild)
    ensures Children(MapSeq(parents, show), key) == MapSeq(Flatten(MapSeq(parents, children)), showChild)
  {
    if parents != [] {
      var n := |parents| - 1;
      var front := parents[..n];
      ChildrenRead(front, show, key, children, showChild);
      assert MapSeq(parents, show)[..n] == MapSeq(front, show);
      assert MapSeq(parents, children)[..n] == MapSeq(front, children);
      MapSeqConcat(Flatten(MapSeq(front, children)), children(parents[n]), showChild);
    }
  }

  lemma MapSeqConcat<S, T>(a: seq<S>, b: seq<S>, f: S -> T)
    ensures MapSeq(a + b, f) == MapSeq(a, f) + MapSeq(b, f)
  {
  }

  function Same<T>(list: seq<T>): seq<T> { list }

  lemma MapSame<T>(lists: seq<seq<T>>)
    ensures MapSeq(lists, Same) == lists
  {
    forall i | 0 <= i < |lists| ensures MapSeq(lists, Same)[i] == lists[i] {
      assert Same(lists[i]) == lists[i];
    }
  }

  lemma FilterFields(f: Filter)
    ensures Field(PrintFilter(f), "typed_config")
         == if f.typed.Some? then One("route_config", PrintHosts(f.typed.value)) else Null
    ensures Field(PrintFilter(f), "route_config") == if f.direct.Some? then PrintHosts(f.direct.value) else Null
  {
    assert "typed_config"[0] != "route_config"[0];
  }

  lemma FilterRead(f: Filter)
    ensures Items(Field(RouteConfig(PrintFilter(f)), "virtual_hosts")) == MapSeq(HostsOf(f), PrintHost)
  {
    FilterFields(f);
    NullField("route_config");
    NullField("virtual_hosts");
    if f.typed.Some? {
      FieldOfOne("route_config", PrintHosts(f.typed.value));
    }
    FieldOfOne("virtual_hosts", Sequence(MapSeq(HostsOf(f), PrintHost)));
  }

  lemma FiltersRead(filters: seq<Filter>)
    ensures FilterHosts(MapSeq(filters, PrintFilter)) == MapSeq(Flatten(MapSeq(filters, HostsOf)), PrintHost)
  {
    var show := (f: Filter) => RouteConfig(PrintFilter(f));
    forall i | 0 <= i < |filters|
      ensures Items(Field(show(filters[i]), "virtual_hosts")) == MapSeq(HostsOf(filters[i]), PrintHost)
    {
      FilterRead(filters[i]);
    }
    ChildrenRead(filters, show, "virtual_hosts", HostsOf, PrintHost);
    assert RouteConfigs(MapSeq(filters, PrintFilter)) == MapSeq(filters, show);
  }

  lemma HostsRead(listeners: seq<Listener>)
    ensures ListenerHosts(MapSeq(listeners, PrintListener)) == MapSeq(AllHosts(listeners), PrintHost)
  {
    var chains := Flatten(listeners);
    forall i | 0 <= i < |listeners|
      ensures Items(Field(PrintListener(listeners[i]), "filter_chains")) == MapSeq(Same(listeners[i]), PrintChain)
    {
      FieldOfOne("filter_chains", Sequence(MapSeq(listeners[i], PrintChain)));
    }
    ChildrenRead(listeners, PrintListener, "filter_chains", Same, PrintChain);
    MapSame(listeners);
    forall i | 0 <= i < |chains|
      ensures Items(Field(PrintChain(chains[i]), "filters")) == MapSeq(Same(chains[i]), PrintFilter)
    {
      FieldOfOne("filters", Sequence(MapSeq(chains[i], PrintFilter)));
    }
    ChildrenRead(chains, PrintChain, "filters", Same, PrintFilter);
    MapSame(chains);
    FiltersRead(Flatten(chains));
  }

  lemma HostFields(h: VirtualHost)
    ensures Items(Field(PrintHost(h), "domains")) == MapSeq(h.domains, PrintText)
    ensures HostCluster(PrintHost(h)) == if h.routes != [] && h.routes[0].Some? then h.routes[0].value else ""
  {
    assert "domains"[0] != "routes"[0];
    var routes := Sequence(MapSeq(h.routes, PrintRoute));
    assert Field(PrintHost(h), "routes") == routes;
    NullField("route");
    NullField("cluster");
    if h.routes == [] {
      assert Item(routes, 0) == Null;
    } else {
      assert Item(routes, 0) == PrintRoute(h.routes[0]);
      if h.routes[0].Some? {
        FieldOfOne("cluster", Text(h.routes[0].value));
        FieldOfOne("route", One("cluster", Text(h.routes[0].value)));
      }
    }
  }

  lemma DomainRoutesLast(front: seq<Yaml>, domain: string, service: NodeId)
    ensures DomainRoutes(front + [PrintText(domain)], service)
         == DomainRoutes(front, service) + if IsWildcard(domain) then [] else [Route(domain, service)]
  {
    TextRead(domain);
    assert (front + [PrintText(domain)])[..|front|] == front;
  }

  lemma DomainsLast(h: VirtualHost, service: NodeId)
    requires h.domains != []
    ensures var n := |h.domains| - 1;
            var front, name := h.(domains := h.domains[..n]), h.domains[n];
            && DomainsOf(h) == DomainsOf(front) + [Domain(name, h.routes)]
            && DomainRoutes(MapSeq(h.domains, PrintText), service)
               == DomainRoutes(MapSeq(front.domains, PrintText), service)
                + if IsWildcard(name) then [] else [Route(name, service)]
  {
    var n := |h.domains| - 1;
    DomainRoutesLast(MapSeq(h.domains[..n], PrintText), h.domains[n], service);
    assert MapSeq(h.domains, PrintText) == MapSeq(h.domains[..n], PrintText) + [PrintText(h.domains[n])];
  }

  lemma DomainNext(clusters: seq<Cluster>, front: seq<Domain>, d: Domain, routes: seq<Route>, service: NodeId)
    requires InOrder(front, routes, ByDomain(clusters))
    requires d.routes != [] && d.routes[0].Some? && Resolves(clusters, d.routes[0].value, service)
    ensures InOrder(front + [d], routes + (if IsWildcard(d.name) then [] else [Route(d.name, service)]),
                    ByDomain(clusters))
  {
    WildcardShape(d.name);
    if IsWildcard(d.name) {
      InOrderSkip(front, routes, d, ByDomain(clusters));
      assert routes + [] == routes;
    } else {
      assert ByDomain(clusters)(d, Route(d.name, service));
      InOrderTake(front, routes, d, Route(d.name, service), ByDomain(clusters));
    }
  }

  /** What the domains of one virtual host are read as. */
  lemma {:induction false} HostDomainsRead(clusters: seq<Cluster>, h: VirtualHost, service: NodeId)
    requires h.routes != [] && h.routes[0].Some? && Resolves(clusters, h.routes[0].value, service)
    ensures InOrder(DomainsOf(h), DomainRoutes(MapSeq(h.domains, PrintText), service), ByDomain(clusters))
    decreases |h.domains|
  {
    if h.domains != [] {
      var n := |h.domains| - 1;
      var front := h.(domains := h.domains[..n]);
      var routes := DomainRoutes(MapSeq(front.domains, PrintText), service);
      HostDomainsRead(clusters, front, service);
      DomainNext(clusters, DomainsOf(front), Domain(h.domains[n], h.routes), routes, service);
      DomainsLast(h, service);
    }
  }

  lemma TextRead(s: string)
    ensures AsText(PrintText(s)) == Some(s)
  {
  }

  lemma WildcardShape(domain: string)
    ensures IsWildcard(domain) <==> domain == "*" || (|domain| >= 2 && domain[0] == '*' && domain[1] == '.')
  {
    assert |domain| >= 2 ==> domain[..2] == [domain[0], domain[1]];
  }

  /** The domains of a host without a resolvable cluster give nothing. */
  lemma {:induction false} NoDomainsRead(clusters: seq<Cluster>, domains: seq<Domain>)
    requires forall i, r :: 0 <= i < |domains| ==> !DomainRoute(clusters, domains[i], r)
    ensures InOrder(domains, [], ByDomain(clusters))
  {
    if domains != [] {
      NoDomainsRead(clusters, domains[..|domains| - 1]);
    }
  }

  /** The routes read from one virtual host. */
  function HostFound(h: VirtualHost, named: Clusters): seq<Route> {
    var name := HostCluster(PrintHost(h));
    if name in named then DomainRoutes(Items(Field(PrintHost(h), "domains")), named[name]) else []
  }

  lemma HostRead(clusters: seq<Cluster>, h: VirtualHost)
    ensures InOrder(DomainsOf(h), HostFound(h, ClusterMap(MapSeq(clusters, PrintCluster))), ByDomain(clusters))
  {
    var named := ClusterMap(MapSeq(clusters, PrintCluster));
    var name := HostCluster(PrintHost(h));
    HostFields(h);
    if name in named {
      NamesRead(clusters, name, named[name]);
      HostDomainsRead(clusters, h, named[name]);
    } else {
      forall service ensures !Resolves(clusters, name, service) {
        NamesRead(clusters, name, service);
      }
      NoDomainsRead(clusters, DomainsOf(h));
    }
  }

  lemma HostsLast(hosts: seq<VirtualHost>, named: Clusters)
    requires hosts != []
    ensures var n := |hosts| - 1;
            && AllDomains(hosts) == AllDomains(hosts[..n]) + DomainsOf(hosts[n])
            && HostRoutes(MapSeq(hosts, PrintHost), named)
               == HostRoutes(MapSeq(hosts[..n], PrintHost), named) + HostFound(hosts[n], named)
  {
    var n := |hosts| - 1;
    assert MapSeq(hosts, PrintHost)[..n] == MapSeq(hosts[..n], PrintHost);
    assert MapSeq(hosts, DomainsOf)[..n] == MapSeq(hosts[..n], DomainsOf);
  }

  /** The second pass reads the domains that lead to a service, in order. */
  lemma {:induction false} DomainsRead(clusters: seq<Cluster>, hosts: seq<VirtualHost>)
    ensures InOrder(AllDomains(hosts), HostRoutes(MapSeq(hosts, PrintHost), ClusterMap(MapSeq(clusters, PrintCluster))),
                    ByDomain(clusters))
  {
    if hosts != [] {
      var n := |hosts| - 1;
      var named := ClusterMap(MapSeq(clusters, PrintCluster));
      DomainsRead(clusters, hosts[..n]);
      HostRead(clusters, hosts[n]);
      HostsLast(hosts, named);
      InOrderConcat(AllDomains(hosts[..n]), HostRoutes(MapSeq(hosts[..n], PrintHost), named), DomainsOf(hosts[n]),
                    HostFound(hosts[n], named), ByDomain(clusters));
    }
  }

  lemma ConfigRead(config: Config)
    ensures ConfigClusters(Print(config)) == MapSeq(config.clusters, PrintCluster)
    ensures ConfigListeners(Print(config)) == MapSeq(config.listeners, PrintListener)
  {
    assert "clusters"[0] != "listeners"[0];
  }

  /** Printing and parsing: the routes read back are first the addresses of the
      clusters that show a service, then the domains that lead to one, each in
      the order they were written. */
  lemma PrintedRoutes(config: Config) returns (addresses: seq<Route>, domains: seq<Route>)
    ensures RoutesOf(Print(config)) == addresses + domains
    ensures InOrder(config.clusters, addresses, ByAddress())
    ensures InOrder(AllDomains(AllHosts(config.listeners)), domains, ByDomain(config.clusters))
  {
    ConfigRead(config);
    addresses := ClusterRoutes(MapSeq(config.clusters, PrintCluster));
    AddressesRead(config.clusters);
    HostsRead(config.listeners);
    domains := HostRoutes(MapSeq(AllHosts(config.listeners), PrintHost),
                          ClusterMap(MapSeq(config.clusters, PrintCluster)));
    DomainsRead(config.clusters, AllHosts(config.listeners));
  }

  lemma ShownUnique(address: string, service: NodeId, other: NodeId)
    requires ShowsService(address, service) && ShowsService(address, other)
    ensures service == other
  {
    ServiceShown(address, service);
    ServiceShown(address, other);
  }

  lemma RoutesUnique(clusters: seq<Cluster>)
    ensures Functional(ByAddress()) && Functional(ByDomain(clusters))
  {
    forall c, r, q | ByAddress()(c, r) && ByAddress()(c, q) ensures r == q {
      ShownUnique(Address(c), r.service, q.service);
    }
    forall d, r, q | ByDomain(clusters)(d, r) && ByDomain(clusters)(d, q) ensures r == q {
      NamesRead(clusters, d.routes[0].value, r.service);
      NamesRead(clusters, d.routes[0].value, q.service);
    }
  }

  /** The virtual host is configured in a filter of a chain of a listener. */
  ghost predicate Configured(listeners: seq<Listener>, h: VirtualHost) {
    exists listener, chain, filter :: && listener in listeners && chain in listener && filter in chain
                                      && h in HostsOf(filter)
  }

  lemma AllHostsExact(listeners: seq<Listener>, h: VirtualHost)
    ensures h in AllHosts(listeners) <==> Configured(listeners, h)
  {
    var chains := Flatten(listeners);
    var filters := Flatten(chains);
    var hosts := MapSeq(filters, HostsOf);
    FlattenMember(hosts, h);
    if h in AllHosts(listeners) {
      var list :| list in hosts && h in list;
      var k :| 0 <= k < |filters| && hosts[k] == list;
      FlattenMember(chains, filters[k]);
      var chain :| chain in chains && filters[k] in chain;
      FlattenMember(listeners, chain);
    }
    if Configured(listeners, h) {
      var listener, chain, filter :| && listener in listeners && chain in listener && filter in chain
                                     && h in HostsOf(filter);
      FlattenMember(listeners, chain);
      FlattenMember(chains, filter);
      var k :| 0 <= k < |filters| && filters[k] == filter;
      assert hosts[k] == HostsOf(filter);
    }
  }

  lemma DomainsOfExact(h: VirtualHost, d: Domain)
    ensures d in DomainsOf(h) <==> d.routes == h.routes && d.name in h.domains
  {
    if d in DomainsOf(h) {
      var i :| 0 <= i < |DomainsOf(h)| && DomainsOf(h)[i] == d;
      assert h.domains[i] == d.name;
    }
    if d.routes == h.routes && d.name in h.domains {
      var i :| 0 <= i < |h.domains| && h.domains[i] == d.name;
      assert DomainsOf(h)[i] == d;
    }
  }

  lemma AllDomainsExact(hosts: seq<VirtualHost>, d: Domain)
    ensures d in AllDomains(hosts) <==> exists h :: h in hosts && d.routes == h.routes && d.name in h.domains
  {
    var lists := MapSeq(hosts, DomainsOf);
    FlattenMember(lists, d);
    if d in AllDomains(hosts) {
      var list :| list in lists && d in list;
      var k :| 0 <= k < |hosts| && lists[k] == list;
      DomainsOfExact(hosts[k], d);
    }
    if h :| h in hosts && d.routes == h.routes && d.name in h.domains {
      DomainsOfExact(h, d);
      var k :| 0 <= k < |hosts| && hosts[k] == h;
      assert lists[k] == DomainsOf(h);
    }
  }

  /** Which routes are read back, without their order. */
  lemma PrintedRoutesExact(config: Config, r: Route)
    ensures r in RoutesOf(Print(config))
       <==> || (exists c :: c in config.clusters && AddressRoute(c, r))
            || (exists h :: && Configured(config.listeners, h) && r.domain in h.domains
                            && DomainRoute(config.clusters, Domain(r.domain, h.routes), r))
  {
    var addresses, domains := PrintedRoutes(config);
    var hosts, all := AllHosts(config.listeners), AllDomains(AllHosts(config.listeners));
    RoutesUnique(config.clusters);
    InOrderMember(config.clusters, addresses, ByAddress(), r);
    InOrderMember(all, domains, ByDomain(config.clusters), r);
    AddressMember(config.clusters, r);
    forall h ensures h in hosts <==> Configured(config.listeners, h) {
      AllHostsExact(config.listeners, h);
    }
    DomainMember(config.clusters, hosts, r);
  }

  lemma AddressMember(clusters: seq<Cluster>, r: Route)
    ensures (exists i :: 0 <= i < |clusters| && ByAddress()(clusters[i], r))
       <==> exists c :: c in clusters && AddressRoute(c, r)
  {
    if c :| c in clusters && AddressRoute(c, r) {
      var i :| 0 <= i < |clusters| && clusters[i] == c;
      assert ByAddress()(clusters[i], r);
    }
    if i :| 0 <= i < |clusters| && ByAddress()(clusters[i], r) {
      assert clusters[i] in clusters;
    }
  }

  lemma DomainMember(clusters: seq<Cluster>, hosts: seq<VirtualHost>, r: Route)
    ensures (exists i :: 0 <= i < |AllDomains(hosts)| && ByDomain(clusters)(AllDomains(hosts)[i], r))
       <==> exists h :: h in hosts && r.domain in h.domains && DomainRoute(clusters, Domain(r.domain, h.routes), r)
  {
    var all := AllDomains(hosts);
    if i :| 0 <= i < |all| && ByDomain(clusters)(all[i], r) {
      AllDomainsExact(hosts, all[i]);
      var h :| h in hosts && all[i].routes == h.routes && all[i].name in h.domains;
      assert all[i] == Domain(r.domain, h.routes);
    }
    if h :| h in hosts && r.domain in h.domains && DomainRoute(clusters, Domain(r.domain, h.routes), r) {
      var d := Domain(r.domain, h.routes);
      AllDomainsExact(hosts, d);
      var i :| 0 <= i < |all| && all[i] == d;
      assert ByDomain(clusters)(all[i], r);
    }
  }

  /** Tags on YAML values make no difference, and values of another kind read as
      absent. */
  lemma TagsIgnored(tag: string, y: Yaml, key: string, i: nat)
    ensures Field(Tagged(tag, y), key) == Field(y, key) && Item(Tagged(tag, y), i) == Item(y, i)
    ensures AsText(Tagged(tag, y)) == AsText(y) && AsSequence(Tagged(tag, y)) == AsSequence(y)
    ensures !y.Tagged? && !y.Mapping? ==> Field(y, key) == Null
    ensures !y.Tagged? && !y.Sequence? ==> Items(y) == []
    ensures !y.Tagged? && !y.Text? ==> AsText(y).None?
  {
  }
}
