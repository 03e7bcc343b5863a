/** The load balancer manager: one shared and one dedicated service per instance, and the allocation
    of ports for the shared ones. */
module LoadBalancers {
  import opened Kube
  import opened Names

  datatype Options = Options(
    lbIP: string,
    portRangeStart: int32,
    portRangeSize: int32,
    enableStandbyLeaderSelector: bool,
    enableLegacyStandbySelector: bool,
    standbyClustersSourceRanges: seq<string>,
    enableLBSourceRanges: bool,
    enableForceSharedIP: bool)

  datatype ObjectKey = ObjectKey(ns: string, name: string)

  datatype Label = Application | ClusterName | Team | SpiloRole | PodName

  /** A service of type LoadBalancer. `managed` is the managed-by label, `ingress` the number of
      addresses the load balancer implementation has reported. */
  datatype Service = Service(
    managed: bool,
    ip: string,
    ports: seq<int32>,
    selector: map<Label, string>,
    sourceRanges: seq<string>,
    annotations: map<string, string>,
    localTraffic: bool,
    ingress: nat)

  type Store = map<ObjectKey, Service>

  function SharedKey(p: Postgres): ObjectKey { ObjectKey(ResourceNamespace(p), SharedServiceName(p)) }
  function DedicatedKey(p: Postgres): ObjectKey { ObjectKey(ResourceNamespace(p), DedicatedServiceName(p)) }

  // ------------------------------------------------- the wanted services

  const BLOCK_ALL := "255.255.255.255/32"
  const SELECTOR_DISABLED := "selector-disabled"
  const SPILO := "spilo"
  const MASTER := "master"
  const STANDBY_LEADER := "standby_leader"
  const SHARED_IP_ANNOTATIONS: map<string, string> := map["metallb.universe.tf/allow-shared-ip" := "spilo"]
  const DEFAULT_PORT: int32 := 5432

  function WantedSourceRanges(o: Options, p: Postgres): seq<string> {
    if !o.enableLBSourceRanges then []
    else
      var ranges := (if p.sourceRanges.Some? then p.sourceRanges.value else []) + o.standbyClustersSourceRanges;
      if ranges == [] then [BLOCK_ALL] else ranges
  }

  function CommonSelector(p: Postgres): map<Label, string> {
    map[Application := SPILO,
        ClusterName := if p.disableLoadBalancers == Some(true) then SELECTOR_DISABLED else ResourceName(p),
        Team := TeamID(p)]
  }

  function SharedSelector(o: Options, p: Postgres): map<Label, string> {
    if p.IsPrimaryOrStandalone() then CommonSelector(p)[SpiloRole := MASTER]
    else if o.enableStandbyLeaderSelector then CommonSelector(p)[SpiloRole := STANDBY_LEADER]
    else if o.enableLegacyStandbySelector then CommonSelector(p)[SpiloRole := MASTER]
    else CommonSelector(p)[PodName := ResourceName(p) + "-0"]
  }

  function DedicatedSelector(p: Postgres): map<Label, string> {
    if p.IsPrimaryOrStandalone() then CommonSelector(p)[SpiloRole := MASTER]
    else CommonSelector(p)[PodName := ResourceName(p) + "-0"]
  }

  function NewShared(o: Options, p: Postgres, ip: string, port: int32): Service {
    Service(true, ip, [port], SharedSelector(o, p), WantedSourceRanges(o, p), SHARED_IP_ANNOTATIONS, false, 0)
  }

  /** An existing shared service gets a new selector, source ranges and annotations, nothing else. */
  function RefreshShared(o: Options, p: Postgres, svc: Service): Service {
    svc.(selector := SharedSelector(o, p), sourceRanges := WantedSourceRanges(o, p),
         annotations := SHARED_IP_ANNOTATIONS)
  }

  function DedicatedPort(p: Postgres): int32 {
    if p.dedicatedPort.Some? && p.dedicatedPort.value != 0 then p.dedicatedPort.value else DEFAULT_PORT
  }

  function NewDedicated(o: Options, p: Postgres): Service
    requires p.EnableDedicatedSvcLB()
  {
    Service(true, p.dedicatedIP.value, [DedicatedPort(p)], DedicatedSelector(p), WantedSourceRanges(o, p),
            map[], true, 0)
  }

  /** An existing dedicated service gets the whole new spec and the annotations; its labels and status stay. */
  function RefreshDedicated(o: Options, p: Postgres, svc: Service): Service
    requires p.EnableDedicatedSvcLB()
  {
    NewDedicated(o, p).(managed := svc.managed, ingress := svc.ingress)
  }

  // ------------------------------------------------- allocation

  function ManagedKeys(s: Store): set<ObjectKey> {
    set k | k in s && s[k].managed
  }

  predicate UsesPort(s: Store, k: ObjectKey, port: int) {
    k in s && s[k].managed && |s[k].ports| > 0 && s[k].ports[0] == port
  }

  predicate PortInUse(s: Store, port: int) {
    exists k :: k in s && UsesPort(s, k, port)
  }

  /** The end of the configured range, computed with 32 bits. */
  function RangeEnd(o: Options): int32 {
    Wrap32(o.portRangeStart + o.portRangeSize)
  }

  predicate InRange(o: Options, port: int) {
    o.portRangeStart <= port < RangeEnd(o)
  }

  function FirstFree(s: Store, lo: int32, hi: int32): (r: Option<int32>)
    ensures r.Some? ==> lo <= r.value < hi && !PortInUse(s, r.value)
    ensures forall q :: lo <= q < (if r.Some? then r.value else hi) ==> PortInUse(s, q)
    decreases hi - lo
  {
    if lo >= hi then None
    else if PortInUse(s, lo) then FirstFree(s, lo + 1, hi)
    else Some(lo)
  }

  /** The port of the next shared service; without any managed service the range is not looked at. */
  function NextPort(o: Options, s: Store): (r: Option<int32>)
    ensures r.Some? ==> !PortInUse(s, r.value)
  {
    if ManagedKeys(s) == {} then
      assert forall k :: k in s ==> k !in ManagedKeys(s);
      Some(o.portRangeStart)
    else FirstFree(s, o.portRangeStart, RangeEnd(o))
  }

  /** An address that the scan of the managed services may come back with: that of one of them,
      or the empty string when none of them has an address. */
  ghost predicate ExistingIP(s: Store, ip: string) {
    if ip == "" then forall k :: k in ManagedKeys(s) ==> s[k].ip == ""
    else exists k :: k in ManagedKeys(s) && s[k].ip == ip
  }

  // ------------------------------------------------- one pass, as a function

  /** The outcomes of the calls of one pass over one service. */
  datatype Calls = Calls(get: Outcome, list: Outcome, create: Outcome, update: Outcome, delete: Outcome)

  const CALM := Calls(Done, Done, Done, Done, Done)

  datatype Pass = Pass(store: Store, ok: bool)

  function SharedPass(o: Options, p: Postgres, c: Calls, s: Store, ip: string): Pass {
    var k := SharedKey(p);
    if !p.EnableSharedSvcLB(o.enableForceSharedIP) then Pass(Deleted(s, k, c.delete), true)
    else if c.get != Done then Pass(s, false)
    else if k in s then Pass(Updated(s, k, RefreshShared(o, p, s[k]), c.update), c.update == Done)
    else if c.list != Done || NextPort(o, s).None? then Pass(s, false)
    else
      var svc := NewShared(o, p, if o.lbIP != "" then o.lbIP else ip, NextPort(o, s).value);
      Pass(Created(s, k, svc, c.create), c.create == Done)
  }

  function DedicatedPass(o: Options, p: Postgres, c: Calls, s: Store): Pass {
    var k := DedicatedKey(p);
    if !p.EnableDedicatedSvcLB() then Pass(Deleted(s, k, c.delete), true)
    else if c.get != Done then Pass(s, false)
    else if k in s then Pass(Updated(s, k, RefreshDedicated(o, p, s[k]), c.update), c.update == Done)
    else Pass(Created(s, k, NewDedicated(o, p), c.create), c.create == Done)
  }

  function ReconcilePass(o: Options, p: Postgres, shared: Calls, dedicated: Calls, s: Store, ip: string): Pass {
    var first := SharedPass(o, p, shared, s, ip);
    var second := DedicatedPass(o, p, dedicated, first.store);
    Pass(second.store, first.ok && second.ok)
  }

  // ------------------------------------------------- what a pass leaves in the services

  function SelectorValue(svc: Service, l: Label): Option<string> {
    if l in svc.selector then Some(svc.selector[l]) else None
  }

  /** The labels that both selectors share. */
  predicate SelectsInstance(p: Postgres, svc: Service) {
    && SelectorValue(svc, Application) == Some("spilo") && SelectorValue(svc, Team) == Some(TeamID(p))
    && SelectorValue(svc, ClusterName) == Some(if p.disableLoadBalancers == Some(true) then "selector-disabled" else ResourceName(p))
  }

  predicate SelectsRole(svc: Service, role: string) {
    SelectorValue(svc, SpiloRole) == Some(role) && SelectorValue(svc, PodName) == None
  }

  predicate SelectsFirstPod(p: Postgres, svc: Service) {
    SelectorValue(svc, SpiloRole) == None && SelectorValue(svc, PodName) == Some(ResourceName(p) + "-0")
  }

  /** No restriction if that is switched off; everything is blocked if nobody has given a range; else the
      user's ranges, followed by the configured ones. */
  predicate RestrictsSources(o: Options, p: Postgres, svc: Service) {
    if !o.enableLBSourceRanges then svc.sourceRanges == []
    else if p.sourceRanges.None? && o.standbyClustersSourceRanges != [] then svc.sourceRanges == o.standbyClustersSourceRanges
    else if p.sourceRanges.Some? && p.sourceRanges.value + o.standbyClustersSourceRanges != [] then
      svc.sourceRanges == p.sourceRanges.value + o.standbyClustersSourceRanges
    else svc.sourceRanges == ["255.255.255.255/32"]
  }

  /** A shared service selects the master of a primary or standalone instance; of a standby, as configured,
      its leader, what it calls its master, or its first pod. */
  predicate IsRightShared(o: Options, p: Postgres, svc: Service) {
    && SelectsInstance(p, svc) && RestrictsSources(o, p, svc)
    && svc.annotations == map["metallb.universe.tf/allow-shared-ip" := "spilo"]
    && if p.connection.None? || p.connection.value.primary then SelectsRole(svc, "master")
       else if o.enableStandbyLeaderSelector then SelectsRole(svc, "standby_leader")
       else if o.enableLegacyStandbySelector then SelectsRole(svc, "master")
       else SelectsFirstPod(p, svc)
  }

  /** A dedicated service has the instance's own address and port, and selects the master or the first pod. */
  predicate IsRightDedicated(o: Options, p: Postgres, svc: Service) {
    && SelectsInstance(p, svc) && RestrictsSources(o, p, svc) && svc.annotations == map[] && svc.localTraffic
    && p.dedicatedIP == Some(svc.ip)
    && svc.ports == [if p.dedicatedPort.None? || p.dedicatedPort.value == 0 then 5432 else p.dedicatedPort.value]
    && if p.connection.None? || p.connection.value.primary then SelectsRole(svc, "master") else SelectsFirstPod(p, svc)
  }

  /** Whatever stood in the store before: a pass that wants the shared service and succeeds leaves it right; a
      new one has the configured address if there is one, an old one keeps its address and ports. */
  lemma SharedIsRight(o: Options, p: Postgres, c: Calls, s: Store, ip: string)
    requires p.EnableSharedSvcLB(o.enableForceSharedIP) && SharedPass(o, p, c, s, ip).ok
    ensures var t := SharedPass(o, p, c, s, ip).store; var k := SharedKey(p);
            && k in t && IsRightShared(o, p, t[k])
            && (k in s ==> t[k].ip == s[k].ip && t[k].ports == s[k].ports && t[k].managed == s[k].managed)
            && (k !in s ==> t[k].managed && t[k].ip == if o.lbIP != "" then o.lbIP else ip)
  {
    NewSharedIsRight(o, p, SharedPass(o, p, c, s, ip).store[SharedKey(p)]);
  }

  lemma NewSharedIsRight(o: Options, p: Postgres, svc: Service)
    requires svc.selector == SharedSelector(o, p) && svc.sourceRanges == WantedSourceRanges(o, p)
    requires svc.annotations == SHARED_IP_ANNOTATIONS
    ensures IsRightShared(o, p, svc)
  {
    RangesAreRight(o, p, svc);
  }

  /** The same for the dedicated service. */
  lemma DedicatedIsRight(o: Options, p: Postgres, c: Calls, s: Store)
    requires p.EnableDedicatedSvcLB() && DedicatedPass(o, p, c, s).ok
    ensures var t := DedicatedPass(o, p, c, s).store; var k := DedicatedKey(p);
            && k in t && IsRightDedicated(o, p, t[k])
            && (k in s ==> t[k].managed == s[k].managed && t[k].ingress == s[k].ingress)
            && (k !in s ==> t[k].managed && t[k].ingress == 0)
  {
    RangesAreRight(o, p, DedicatedPass(o, p, c, s).store[DedicatedKey(p)]);
  }

  /** When the two halves report an error: never over an unwanted service; over a wanted one if a call that is
      needed fails, or there is no port for a new shared one. */
  lemma ReportsExactly(o: Options, p: Postgres, c: Calls, s: Store, ip: string)
    ensures SharedPass(o, p, c, s, ip).ok <==>
      (p.EnableSharedSvcLB(o.enableForceSharedIP) ==>
         c.get == Done && if SharedKey(p) in s then c.update == Done else c.list == Done && c.create == Done && NextPort(o, s).Some?)
    ensures DedicatedPass(o, p, c, s).ok <==>
      (p.EnableDedicatedSvcLB() ==> c.get == Done && if DedicatedKey(p) in s then c.update == Done else c.create == Done)
  {
  }

  lemma RangesAreRight(o: Options, p: Postgres, svc: Service)
    requires svc.sourceRanges == WantedSourceRanges(o, p)
    ensures RestrictsSources(o, p, svc)
  {
    assert [] + o.standbyClustersSourceRanges == o.standbyClustersSourceRanges;
  }

  // ------------------------------------------------- the manager

  /** The API server as far as services are concerned. */
  class ServiceClient {
    var services: Store

    method Get(k: ObjectKey, o: Outcome) returns (r: Result<Service>)
      ensures r.Ok? <==> TouchError(services, k, o).None?
      ensures r.Ok? ==> r.value == services[k]
      ensures r.Err? ==> Some(r.error) == TouchError(services, k, o)
    {
      if o != Done {
        return Err(Failed);
      }
      if k !in services {
        return Err(NotFound);
      }
      return Ok(services[k]);
    }

    /** All services that carry the managed-by label, in an order nobody knows. */
    method ListManaged(o: Outcome) returns (r: Result<seq<ObjectKey>>)
      ensures r.Ok? <==> o == Done
      ensures r.Ok? ==> forall k :: k in r.value <==> k in ManagedKeys(services)
    {
      if o != Done {
        return Err(Failed);
      }
      var items: seq<ObjectKey> := [];
      var rest := ManagedKeys(services);
      while rest != {}
        invariant forall k :: k in items || k in rest <==> k in ManagedKeys(services)
        decreases rest
      {
        var k :| k in rest;
        rest := rest - {k};
        items := items + [k];
      }
      return Ok(items);
    }

    method Create(k: ObjectKey, svc: Service, o: Outcome) returns (e: Option<Error>)
      modifies this
      ensures services == Created(old(services), k, svc, o)
      ensures e == CreateError(old(services), k, o)
    {
      e := CreateError(services, k, o);
      services := Created(services, k, svc, o);
    }

    method Update(k: ObjectKey, svc: Service, o: Outcome) returns (e: Option<Error>)
      modifies this
      ensures services == Updated(old(services), k, svc, o)
      ensures e == TouchError(old(services), k, o)
    {
      e := TouchError(services, k, o);
      services := Updated(services, k, svc, o);
    }

    method Delete(k: ObjectKey, o: Outcome) returns (e: Option<Error>)
      modifies this
      ensures services == Deleted(old(services), k, o)
      ensures e == TouchError(old(services), k, o)
    {
      e := TouchError(services, k, o);
      services := Deleted(services, k, o);
    }
  }

  datatype Socket = Socket(ip: string, port: int32)

  class LBManager {
    const client: ServiceClient
    const options: Options

    constructor (client: ServiceClient, options: Options)
      ensures this.client == client && this.options == options
    {
      this.client, this.options := client, options;
    }

    /** The least port of the range that no managed service uses, or an error when there is none. */
    method NextFreeSocket(list: Outcome) returns (r: Result<Socket>)
      ensures r.Ok? <==> list == Done && NextPort(options, client.services).Some?
      ensures r.Ok? ==> Some(r.value.port) == NextPort(options, client.services)
      ensures r.Ok? ==> ExistingIP(client.services, r.value.ip)
    {
      var anyExistingLBIP := "";
      var lbs := client.ListManaged(list);
      if lbs.Err? {
        return Err(lbs.error);
      }
      var items := lbs.value;
      if |items| == 0 {
        assert forall k :: k in ManagedKeys(client.services) ==> k in items;
        return Ok(Socket(anyExistingLBIP, options.portRangeStart));
      }
      assert items[0] in ManagedKeys(client.services);

      var portsInUse: seq<int32> := [];
      for i := 0 to |items|
        invariant forall q :: q in portsInUse <==> exists j :: 0 <= j < i && UsesPort(client.services, items[j], q)
        invariant if anyExistingLBIP == "" then forall j :: 0 <= j < i ==> items[j] in ManagedKeys(client.services) && client.services[items[j]].ip == ""
                  else exists j :: 0 <= j < i && items[j] in ManagedKeys(client.services) && client.services[items[j]].ip == anyExistingLBIP
      {
        assert items[i] in ManagedKeys(client.services);
        var svc := client.services[items[i]];
        if |svc.ports| > 0 {
          portsInUse := portsInUse + [svc.ports[0]];
          assert UsesPort(client.services, items[i], svc.ports[0]);
        }
        if svc.ip != "" {
          anyExistingLBIP := svc.ip;
        }
      }
      PortsAreAll(client.services, items, portsInUse);

      var port: int := options.portRangeStart;
      var end := RangeEnd(options);
      while port < end
        invariant options.portRangeStart <= port
        invariant port <= MAX_INT32
        invariant FirstFree(client.services, options.portRangeStart, end) ==
                  if port <= end then FirstFree(client.services, port, end) else None
      {
        var used := ContainsElem(portsInUse, port);
        if used {
          port := port + 1;
          continue;
        }
        return Ok(Socket(anyExistingLBIP, port));
      }
      return Err(Failed);
    }

    method CreateOrUpdateSharedSvcLB(p: Postgres, c: Calls) returns (ok: bool, ghost ip: string)
      modifies client
      ensures ExistingIP(old(client.services), ip)
      ensures Pass(client.services, ok) == SharedPass(options, p, c, old(client.services), ip)
    {
      ip := AnIP(client.services);
      if !p.EnableSharedSvcLB(options.enableForceSharedIP) {
        var _ := DeleteSharedSvcLB(p, c.delete);
        return true, ip;
      }
      var key := SharedKey(p);
      var got := client.Get(key, c.get);
      if got.Err? {
        if got.error != NotFound {
          return false, ip;
        }
        var free := NextFreeSocket(c.list);
        if free.Err? {
          return false, ip;
        }
        ip := free.value.ip;
        var lbIPToUse := if options.lbIP != "" then options.lbIP else free.value.ip;
        var e := client.Create(key, NewShared(options, p, lbIPToUse, free.value.port), c.create);
        return e.None?, ip;
      }
      var svc := RefreshShared(options, p, got.value);
      var e := client.Update(key, svc, c.update);
      return e.None?, ip;
    }

    method CreateOrUpdateDedicatedSvcLB(p: Postgres, c: Calls) returns (ok: bool)
      modifies client
      ensures Pass(client.services, ok) == DedicatedPass(options, p, c, old(client.services))
    {
      if !p.EnableDedicatedSvcLB() {
        var _ := DeleteDedicatedSvcLB(p, c.delete);
        return true;
      }
      var svc := NewDedicated(options, p);
      var key := DedicatedKey(p);
      var existing := client.Get(key, c.get);
      if existing.Err? {
        if existing.error != NotFound {
          return false;
        }
        var e := client.Create(key, svc, c.create);
        return e.None?;
      }
      svc := RefreshDedicated(options, p, existing.value);
      var e := client.Update(key, svc, c.update);
      return e.None?;
    }

    /** Both services are handled even when the first one fails. */
    method ReconcileSvcLBs(p: Postgres, shared: Calls, dedicated: Calls) returns (ok: bool, ghost ip: string)
      modifies client
      ensures ExistingIP(old(client.services), ip)
      ensures Pass(client.services, ok) == ReconcilePass(options, p, shared, dedicated, old(client.services), ip)
    {
      var sharedOk, anyIP := CreateOrUpdateSharedSvcLB(p, shared);
      var dedicatedOk := CreateOrUpdateDedicatedSvcLB(p, dedicated);
      ok, ip := sharedOk && dedicatedOk, anyIP;
    }

    method DeleteSharedSvcLB(p: Postgres, o: Outcome) returns (ok: bool)
      modifies client
      ensures client.services == Deleted(old(client.services), SharedKey(p), o)
      ensures ok <==> o == Done
    {
      var e := client.Delete(SharedKey(p), o);
      return e.None? || e.value == NotFound;
    }

    method DeleteDedicatedSvcLB(p: Postgres, o: Outcome) returns (ok: bool)
      modifies client
      ensures client.services == Deleted(old(client.services), DedicatedKey(p), o)
      ensures ok <==> o == Done
    {
      var e := client.Delete(DedicatedKey(p), o);
      return e.None? || e.value == NotFound;
    }
  }

  method ContainsElem(s: seq<int32>, v: int) returns (found: bool)
    ensures found <==> v in s
  {
    for i := 0 to |s|
      invariant v !in s[..i]
    {
      if s[i] == v {
        return true;
      }
    }
    return false;
  }

  /** Some address a scan may find. */
  ghost function AnIP(s: Store): (ip: string)
    ensures ExistingIP(s, ip)
  {
    if exists k :: k in ManagedKeys(s) && s[k].ip != "" then
      var k :| k in ManagedKeys(s) && s[k].ip != "";
      s[k].ip
    else ""
  }

  lemma PortsAreAll(s: Store, items: seq<ObjectKey>, ports: seq<int32>)
    requires forall k :: k in items <==> k in ManagedKeys(s)
    requires forall q :: q in ports <==> exists j :: 0 <= j < |items| && UsesPort(s, items[j], q)
    ensures forall q: int :: q in ports <==> PortInUse(s, q)
  {
    forall q: int
      ensures q in ports <==> PortInUse(s, q)
    {
      if PortInUse(s, q) {
        var k :| k in s && UsesPort(s, k, q);
        assert k in items;
        var j :| 0 <= j < |items| && items[j] == k;
      }
    }
  }
}
