/** Which service a pod belongs to: the incremental registry used for single pod
    events, and the bulk pass used for the whole cluster. */
module Registry {
  import opened Hosts
  import opened Lists

  type Labels = map<string, string>

  datatype Spec = Spec(selector: Option<Labels>, serviceType: Option<string>)

  datatype Service = Service(name: Option<string>, namespace: Option<string>, spec: Option<Spec>)

  datatype Pod = Pod(labels: Option<Labels>, ip: Option<string>)

  datatype RegisteredService = RegisteredService(name: string, serviceType: string, selector: Labels)

  datatype Entry = Entry(name: string, namespace: string, serviceType: string, podIps: seq<string>)

  /** The record of a service that manages pods: named, with a selector. */
  function Record(svc: Service): Option<RegisteredService> {
    if svc.name.None? || svc.spec.None? then None
    else
      var selector := Or(svc.spec.value.selector, map[]);
      if selector == map[] then None
      else Some(RegisteredService(svc.name.value, Or(svc.spec.value.serviceType, "ClusterIP"), selector))
  }

  function Key(name: string, namespace: string): string { namespace + "/" + name }

  function KeyOf(svc: Service): string { Key(Or(svc.name, ""), Or(svc.namespace, "")) }

  /** Every label the selector asks for is on the pod. */
  predicate Selects(selector: Labels, labels: Option<Labels>) {
    forall k :: k in selector ==> labels.Some? && k in labels.value && labels.value[k] == selector[k]
  }

  type Services = map<string, RegisteredService>

  function WithService(services: Services, svc: Service): Services {
    if Record(svc).Some? then services[KeyOf(svc) := Record(svc).value] else services
  }

  /** The registry after a list of services has been registered. */
  function Built(list: seq<Service>): Services {
    if list == [] then map[] else WithService(Built(list[..|list| - 1]), list[|list| - 1])
  }

  /** The pod has labels, and every entry of the selector is among them. */
  ghost predicate Covers(labels: Option<Labels>, selector: Labels) {
    labels.Some? && selector.Items <= labels.value.Items
  }

  /** The service manages pods: it has a name and a selector that is not empty. */
  ghost predicate Managing(svc: Service) {
    && svc.name.Some? && svc.spec.Some? && svc.spec.value.selector.Some?
    && svc.spec.value.selector.value != map[]
  }

  /** What a managing service is registered as, and under which key. */
  ghost predicate Registers(svc: Service, key: string, record: RegisteredService) {
    && Managing(svc)
    && key == (if svc.namespace.Some? then svc.namespace.value else "") + "/" + svc.name.value
    && record.name == svc.name.value && record.selector == svc.spec.value.selector.value
    && record.serviceType == if svc.spec.value.serviceType.Some? then svc.spec.value.serviceType.value else "ClusterIP"
  }

  lemma RecordExact(svc: Service, key: string, record: RegisteredService)
    ensures Registers(svc, key, record) <==> Record(svc) == Some(record) && KeyOf(svc) == key
  {
  }

  lemma SelectsIff(selector: Labels, labels: Option<Labels>)
    requires labels.Some? || selector != map[]
    ensures Selects(selector, labels) <==> Covers(labels, selector)
  {
    if Selects(selector, labels) {
      assert labels.Some? by {
        assert selector != map[] ==> selector.Keys != {};
      }
      forall item | item in selector.Items ensures item in labels.value.Items {
        assert item.0 in selector;
      }
    }
    if Covers(labels, selector) {
      forall k | k in selector ensures k in labels.value && labels.value[k] == selector[k] {
        assert (k, selector[k]) in labels.value.Items;
      }
    }
  }

  /** What a lookup may answer, whatever order the services are tried in. */
  ghost predicate Answers(services: Services, pod: Pod, r: Option<(string, string)>) {
    if r.Some? then exists key :: key in services && Covers(pod.labels, services[key].selector)
                               && r.value == (services[key].name, services[key].serviceType)
    else forall key :: key in services ==> !Covers(pod.labels, services[key].selector)
  }

  class ServiceRegistry {
    var services: Services

    constructor ()
      ensures services == map[]
    {
      services := map[];
    }

    method Register(svc: Service) returns (reply: string)
      modifies this
      ensures services == WithService(old(services), svc)
      ensures forall key, record :: Registers(svc, key, record) ==> services == old(services)[key := record]
      ensures !Managing(svc) ==> services == old(services)
      ensures reply == "no service found!" <==> svc.name.None?
      ensures reply == "No spec found!" <==> svc.name.Some? && svc.spec.None?
      ensures reply == "No selector found on service" <==> svc.name.Some? && svc.spec.Some? && !Managing(svc)
      ensures reply == "regisetered services" <==> Managing(svc)
    {
      if svc.name.None? {
        return "no service found!";
      }
      var namespace := Or(svc.namespace, "");
      if svc.spec.None? {
        return "No spec found!";
      }
      var selector := Or(svc.spec.value.selector, map[]);
      if selector == map[] {
        return "No selector found on service";
      }
      var serviceType := Or(svc.spec.value.serviceType, "ClusterIP");
      services := services[Key(svc.name.value, namespace) := RegisteredService(svc.name.value, serviceType, selector)];
      return "regisetered services";
    }

    method Deregister(name: string, namespace: string) returns (reply: string)
      modifies this
      ensures services == old(services) - {namespace + "/" + name} && reply == "deregisterd service"
    {
      services := services - {Key(name, namespace)};
      return "deregisterd service";
    }

    method FindServiceForPod(pod: Pod) returns (r: Option<(string, string)>)
      ensures Answers(services, pod, r)
    {
      if pod.labels.None? {
        return None;
      }
      var todo := services.Keys;
      while todo != {}
        invariant todo <= services.Keys
        invariant forall key :: key in services.Keys - todo ==> !Covers(pod.labels, services[key].selector)
        decreases todo
      {
        var key :| key in todo;
        SelectsIff(services[key].selector, pod.labels);
        if Selects(services[key].selector, pod.labels) {
          return Some((services[key].name, services[key].serviceType));
        }
        todo := todo - {key};
      }
      return None;
    }
  }

  /** The IPs of the pods a selector selects, in order; pods without an IP are
      left out. */
  function SelectedIps(selector: Labels, pods: seq<Pod>): seq<string> {
    if pods == [] then []
    else
      var last := pods[|pods| - 1];
      SelectedIps(selector, pods[..|pods| - 1])
      + if Selects(selector, last.labels) && last.ip.Some? then [last.ip.value] else []
  }

  /** The entry of one service in the bulk map, if it manages any pod. */
  function BulkEntry(svc: Service, pods: seq<Pod>): Option<Entry> {
    if Record(svc).None? then None
    else
      var record := Record(svc).value;
      var ips := SelectedIps(record.selector, pods);
      if ips == [] then None else Some(Entry(record.name, Or(svc.namespace, ""), record.serviceType, ips))
  }

  function BulkEntries(list: seq<Service>, pods: seq<Pod>): seq<Entry> {
    if list == [] then []
    else
      var last := BulkEntry(list[|list| - 1], pods);
      BulkEntries(list[..|list| - 1], pods) + if last.Some? then [last.value] else []
  }

  method InitialPodServiceMap(list: seq<Service>, pods: seq<Pod>) returns (entries: seq<Entry>)
    ensures InOrder(list, entries, ServiceEntry(pods))
  {
    entries := [];
    for i := 0 to |list|
      invariant entries == BulkEntries(list[..i], pods)
    {
      var svc := list[i];
      assert list[..i + 1][..i] == list[..i];
      if svc.name.None? || svc.spec.None? {
        continue;
      }
      var selector := Or(svc.spec.value.selector, map[]);
      if selector == map[] {
        continue;
      }
      var ips := SelectedIps(selector, pods);
      if ips != [] {
        entries := entries + [Entry(svc.name.value, Or(svc.namespace, ""), Or(svc.spec.value.serviceType, "ClusterIP"),
                                    ips)];
      }
    }
    assert list[..|list|] == list;
    BulkEntriesInOrder(list, pods);
  }

  /** The pod has this IP and carries all the labels asked for. */
  ghost predicate PodIp(selector: Labels, pod: Pod, ip: string) {
    pod.ip == Some(ip) && Covers(pod.labels, selector)
  }

  ghost function Selecting(selector: Labels): (Pod, string) -> bool { (pod, ip) => PodIp(selector, pod, ip) }

  /** The bulk entry of a managing service: its name, namespace and type, and the
      IPs of the pods that carry all labels of its selector, in their order. */
  ghost predicate EntryFor(svc: Service, pods: seq<Pod>, e: Entry) {
    && Managing(svc) && e.name == svc.name.value
    && e.namespace == (if svc.namespace.Some? then svc.namespace.value else "")
    && e.serviceType == (if svc.spec.value.serviceType.Some? then svc.spec.value.serviceType.value else "ClusterIP")
    && InOrder(pods, e.podIps, Selecting(svc.spec.value.selector.value)) && e.podIps != []
  }

  ghost function ServiceEntry(pods: seq<Pod>): (Service, Entry) -> bool { (svc, e) => EntryFor(svc, pods, e) }

  lemma {:induction false} SelectedIpsInOrder(selector: Labels, pods: seq<Pod>)
    requires selector != map[]
    ensures InOrder(pods, SelectedIps(selector, pods), Selecting(selector))
  {
    if pods != [] {
      var n := |pods| - 1;
      var ips, last := SelectedIps(selector, pods[..n]), pods[n];
      SelectedIpsInOrder(selector, pods[..n]);
      SelectsIff(selector, last.labels);
      if Selects(selector, last.labels) && last.ip.Some? {
        assert Selecting(selector)(last, last.ip.value);
        assert SelectedIps(selector, pods)[..|ips|] == ips;
      } else {
        assert SelectedIps(selector, pods) == ips;
      }
    }
  }

  /** An IP is listed exactly if some pod with that IP has every label. */
  lemma SelectedIpsExact(selector: Labels, pods: seq<Pod>, ips: seq<string>, ip: string)
    requires InOrder(pods, ips, Selecting(selector))
    ensures ip in ips <==> exists i :: 0 <= i < |pods| && pods[i].ip == Some(ip) && Covers(pods[i].labels, selector)
  {
    InOrderMember(pods, ips, Selecting(selector), ip);
    if i :| 0 <= i < |pods| && Selecting(selector)(pods[i], ip) {
      assert PodIp(selector, pods[i], ip);
    }
    if i :| 0 <= i < |pods| && pods[i].ip == Some(ip) && Covers(pods[i].labels, selector) {
      assert Selecting(selector)(pods[i], ip);
    }
  }

  /** The lists picked are determined. */
  lemma {:induction false} IpsDetermined(selector: Labels, pods: seq<Pod>, ips: seq<string>)
    requires selector != map[] && InOrder(pods, ips, Selecting(selector))
    ensures ips == SelectedIps(selector, pods)
  {
    SelectedIpsInOrder(selector, pods);
    InOrderUnique(pods, ips, SelectedIps(selector, pods), Selecting(selector));
  }

  /** The entry of a service is the one the bulk pass computes. */
  lemma BulkEntryExact(svc: Service, pods: seq<Pod>, e: Entry)
    ensures BulkEntry(svc, pods) == Some(e) <==> EntryFor(svc, pods, e)
  {
    if Managing(svc) {
      var selector := svc.spec.value.selector.value;
      SelectedIpsInOrder(selector, pods);
      if InOrder(pods, e.podIps, Selecting(selector)) {
        IpsDetermined(selector, pods, e.podIps);
      }
    }
  }

  lemma {:induction false} BulkEntriesInOrder(list: seq<Service>, pods: seq<Pod>)
    ensures InOrder(list, BulkEntries(list, pods), ServiceEntry(pods))
  {
    if list != [] {
      var n := |list| - 1;
      var entries, last := BulkEntries(list[..n], pods), list[n];
      BulkEntriesInOrder(list[..n], pods);
      if BulkEntry(last, pods).Some? {
        BulkEntryExact(last, pods, BulkEntry(last, pods).value);
        assert ServiceEntry(pods)(last, BulkEntry(last, pods).value);
        assert BulkEntries(list, pods)[..|entries|] == entries;
      } else {
        forall e ensures !ServiceEntry(pods)(last, e) {
          BulkEntryExact(last, pods, e);
        }
        assert BulkEntries(list, pods) == entries;
      }
    }
  }

  /** The entries the bulk pass sends are those of its services. */
  lemma BulkEntriesExact(list: seq<Service>, pods: seq<Pod>, entries: seq<Entry>, e: Entry)
    requires InOrder(list, entries, ServiceEntry(pods))
    ensures e in entries <==> exists i :: 0 <= i < |list| && EntryFor(list[i], pods, e)
  {
    forall svc, f, h | ServiceEntry(pods)(svc, f) && ServiceEntry(pods)(svc, h) ensures f == h {
      BulkEntryExact(svc, pods, f);
      BulkEntryExact(svc, pods, h);
    }
    InOrderMember(list, entries, ServiceEntry(pods), e);
    if i :| 0 <= i < |list| && EntryFor(list[i], pods, e) {
      assert ServiceEntry(pods)(list[i], e);
    }
  }

  /** One missing or different label keeps a pod out of a service's entry. */
  lemma MismatchExcludes(svc: Service, pods: seq<Pod>, e: Entry, ip: string)
    requires EntryFor(svc, pods, e)
    requires forall i :: 0 <= i < |pods| && pods[i].ip == Some(ip) ==>
               || pods[i].labels.None?
               || exists k :: && k in svc.spec.value.selector.value
                              && (k !in pods[i].labels.value
                                  || pods[i].labels.value[k] != svc.spec.value.selector.value[k])
    ensures ip !in e.podIps
  {
    var selector := svc.spec.value.selector.value;
    SelectedIpsExact(selector, pods, e.podIps, ip);
    if i :| 0 <= i < |pods| && pods[i].ip == Some(ip) && Covers(pods[i].labels, selector) {
      SelectsIff(selector, pods[i].labels);
      assert false;
    }
  }

  /** The entry came from a service that selects the pod. */
  ghost predicate Matches(list: seq<Service>, pods: seq<Pod>, pod: Pod, e: Entry) {
    exists i :: 0 <= i < |list| && EntryFor(list[i], pods, e)
             && Covers(pod.labels, list[i].spec.value.selector.value)
  }

  /** The service at `i` is registered under the key, and no later one is. */
  ghost predicate LastRegistering(list: seq<Service>, key: string, record: RegisteredService, i: int) {
    && 0 <= i < |list| && Registers(list[i], key, record)
    && forall j, other :: i < j < |list| ==> !Registers(list[j], key, other)
  }

  /** Some service of the list is registered under the key, the last such as
      this record. */
  ghost predicate RegisteredAs(list: seq<Service>, key: string, record: RegisteredService) {
    exists i :: LastRegistering(list, key, record, i)
  }

  lemma LastTakes(front: seq<Service>, last: Service, key: string, record: RegisteredService)
    requires exists other :: Registers(last, key, other)
    ensures RegisteredAs(front + [last], key, record) <==> Registers(last, key, record)
  {
    var all := front + [last];
    if Registers(last, key, record) {
      assert LastRegistering(all, key, record, |front|);
    }
    if i :| LastRegistering(all, key, record, i) {
      assert all[|front|] == last;
    }
  }

  lemma LastPasses(front: seq<Service>, last: Service, key: string, record: RegisteredService)
    requires forall other :: !Registers(last, key, other)
    ensures RegisteredAs(front + [last], key, record) <==> RegisteredAs(front, key, record)
  {
    var all := front + [last];
    assert forall j :: 0 <= j < |front| ==> all[j] == front[j];
    if i :| LastRegistering(front, key, record, i) {
      assert LastRegistering(all, key, record, i);
    }
    if i :| LastRegistering(all, key, record, i) {
      assert LastRegistering(front, key, record, i);
    }
  }

  /** After registering a list, a key stands for the last service with it. */
  lemma {:induction false} BuiltExact(list: seq<Service>, key: string, record: RegisteredService)
    ensures (key in Built(list) && Built(list)[key] == record) <==> RegisteredAs(list, key, record)
  {
    if list != [] {
      var n := |list| - 1;
      var front, last := list[..n], list[n];
      BuiltExact(front, key, record);
      assert list == front + [last];
      forall other ensures Registers(last, key, other) <==> Record(last) == Some(other) && KeyOf(last) == key {
        RecordExact(last, key, other);
      }
      if Record(last).Some? && KeyOf(last) == key {
        assert Registers(last, key, Record(last).value);
        LastTakes(front, last, key, record);
      } else {
        LastPasses(front, last, key, record);
      }
    }
  }

  /** No two services that manage pods share a registry key. */
  ghost predicate DistinctKeys(list: seq<Service>) {
    forall i, j, key, record, other :: 0 <= i < j < |list| ==>
      !(Registers(list[i], key, record) && Registers(list[j], key, other))
  }

  /** The registry and the bulk pass agree on every listed pod with an IP: the
      registry names some service exactly when the bulk pass lists the pod in
      some entry of a service that selects it, and the service named is one of
      those entries, whatever order the registry is searched in. */
  lemma RegistryAgreesWithBulk(list: seq<Service>, pods: seq<Pod>, pod: Pod, r: Option<(string, string)>)
    requires DistinctKeys(list) && pod in pods && pod.ip.Some? && Answers(Built(list), pod, r)
    ensures r.Some? <==> exists e :: Matches(list, pods, pod, e)
    ensures r.Some? ==> exists e :: Matches(list, pods, pod, e) && r.value == (e.name, e.serviceType)
                                 && pod.ip.value in e.podIps
  {
    if r.Some? {
      var e := AnswerListed(list, pods, pod, r.value);
    }
    if e :| Matches(list, pods, pod, e) {
      MatchAnswered(list, pods, pod, e);
    }
  }

  lemma AnswerListed(list: seq<Service>, pods: seq<Pod>, pod: Pod, answer: (string, string)) returns (e: Entry)
    requires pod in pods && pod.ip.Some? && Answers(Built(list), pod, Some(answer))
    ensures Matches(list, pods, pod, e) && answer == (e.name, e.serviceType) && pod.ip.value in e.podIps
  {
    var services := Built(list);
    var key :| key in services && Covers(pod.labels, services[key].selector)
            && Some(answer).value == (services[key].name, services[key].serviceType);
    BuiltExact(list, key, services[key]);
    var i :| LastRegistering(list, key, services[key], i);
    e := EntryExists(list[i], pods, pod);
  }

  lemma MatchAnswered(list: seq<Service>, pods: seq<Pod>, pod: Pod, e: Entry)
    requires DistinctKeys(list) && Matches(list, pods, pod, e)
    ensures exists key :: key in Built(list) && Covers(pod.labels, Built(list)[key].selector)
  {
    var i :| 0 <= i < |list| && EntryFor(list[i], pods, e) && Covers(pod.labels, list[i].spec.value.selector.value);
    var key, record := KeyOf(list[i]), Record(list[i]).value;
    RecordExact(list[i], key, record);
    assert LastRegistering(list, key, record, i);
    BuiltExact(list, key, record);
  }

  /** A selecting service lists the pod. */
  lemma EntryExists(svc: Service, pods: seq<Pod>, pod: Pod) returns (e: Entry)
    requires Managing(svc) && Covers(pod.labels, svc.spec.value.selector.value)
    requires pod in pods && pod.ip.Some?
    ensures EntryFor(svc, pods, e) && pod.ip.value in e.podIps
  {
    var selector := svc.spec.value.selector.value;
    var ips := SelectedIps(selector, pods);
    SelectedIpsInOrder(selector, pods);
    SelectedIpsExact(selector, pods, ips, pod.ip.value);
    assert pod.ip.value in ips;
    e := BulkEntry(svc, pods).value;
    BulkEntryExact(svc, pods, e);
  }
}
