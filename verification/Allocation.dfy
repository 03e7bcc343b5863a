/** What the load balancer manager keeps over whole runs. */
module Allocation {
  import opened Kube
  import opened Names
  import opened LoadBalancers

  // ------------------------------------------------- exact allocation

  /** With at least one managed service the allocator finds the least port of the range that is used
      by none of them, and fails exactly when there is no such port. */
  lemma AllocationIsExact(o: Options, s: Store, port: int32)
    requires ManagedKeys(s) != {}
    ensures NextPort(o, s) == Some(port) <==>
      InRange(o, port) && !PortInUse(s, port) && forall q :: o.portRangeStart <= q < port ==> PortInUse(s, q)
    ensures NextPort(o, s).None? <==> forall q :: InRange(o, q) ==> PortInUse(s, q)
  {
  }

  predicate RangeFits(o: Options) {
    0 <= o.portRangeSize && -0x8000_0000 <= o.portRangeStart + o.portRangeSize <= MAX_INT32
  }

  /** With fewer managed services than ports (and at least one service), allocation succeeds exactly when
      the end of the range is representable: a range beyond 2^31 - 1 wraps around and counts as empty. */
  lemma NeverFailsBelowCapacity(o: Options, s: Store)
    requires 1 <= |ManagedKeys(s)| < o.portRangeSize
    ensures NextPort(o, s).Some? <==> RangeFits(o)
  {
    if RangeFits(o) && NextPort(o, s).None? {
      forall q | o.portRangeStart <= q < o.portRangeStart + o.portRangeSize
        ensures UsedByOneOf(s, ManagedKeys(s), q)
      {
        assert PortInUse(s, q);
        var k :| k in s && UsesPort(s, k, q);
        assert k in ManagedKeys(s);
      }
      PortsAtMostServices(s, ManagedKeys(s), o.portRangeStart, o.portRangeSize);
    }
  }

  predicate UsedByOneOf(s: Store, users: set<ObjectKey>, port: int) {
    exists k :: k in users && UsesPort(s, k, port)
  }

  /** Pigeonhole: `n` consecutive ports in use need `n` services. */
  lemma {:induction false} PortsAtMostServices(s: Store, users: set<ObjectKey>, lo: int, n: nat)
    requires forall q :: lo <= q < lo + n ==> UsedByOneOf(s, users, q)
    ensures n <= |users|
    decreases n
  {
    if n > 0 {
      var last := lo + n - 1;
      assert UsedByOneOf(s, users, last);
      var k :| k in users && UsesPort(s, k, last);
      forall q | lo <= q < lo + (n - 1)
        ensures UsedByOneOf(s, users - {k}, q)
      {
        assert UsedByOneOf(s, users, q);
        var k' :| k' in users && UsesPort(s, k', q);
        assert k' in users - {k};
      }
      PortsAtMostServices(s, users - {k}, lo, n - 1);
    }
  }

  /** An allocated port lies in the configured range, except that the very first managed service gets
      the start of the range even when the range is empty. */
  lemma AllocatedInRange(o: Options, s: Store)
    requires NextPort(o, s).Some?
    ensures InRange(o, NextPort(o, s).value) <==> ManagedKeys(s) != {} || o.portRangeStart < RangeEnd(o)
    ensures 1 <= o.portRangeSize && RangeFits(o) ==> InRange(o, NextPort(o, s).value)
  {
  }

  function Ports(start: int32, size: int32): Options {
    Options("", start, size, false, false, [], false, false)
  }

  /** The first service gets a port even out of an empty range. */
  lemma FirstPortCanBeOutOfRange()
    ensures NextPort(Ports(32000, 0), map[]) == Some(32000) && !InRange(Ports(32000, 0), 32000)
  {
  }

  /** The store with the one shared service that a first pass has made. */
  function First(p: Postgres, ip: string): Store {
    map[SharedKey(p) := NewShared(Ports(32000, 1), p, ip, 32000)]
  }

  /** Eight ports of ten are beyond 2^31 - 1: after a first service has been made with another range, a
      second one gets none although all ten are free. */
  lemma RangeCanWrap(p: Postgres, ip: string)
    ensures var o := Ports(MAX_INT32 - 1, 10);
            && 1 <= |ManagedKeys(First(p, ip))| < o.portRangeSize && NextPort(o, First(p, ip)).None?
            && forall q :: o.portRangeStart <= q < o.portRangeStart + o.portRangeSize ==> !PortInUse(First(p, ip), q)
  {
    assert ManagedKeys(First(p, ip)) == {SharedKey(p)};
  }

  // ------------------------------------------------- runs

  /** Anything that happens to services. Options belong to the event: they may differ every time.
      `Foreign` is a change of a service without the managed-by label, `Ingress` a status report. */
  datatype Event =
    | Reconcile(options: Options, p: Postgres, shared: Calls, dedicated: Calls, ip: string)
    | DeleteShared(p: Postgres, outcome: Outcome)
    | DeleteDedicated(p: Postgres, outcome: Outcome)
    | Foreign(key: ObjectKey, service: Option<Service>)
    | Ingress(key: ObjectKey, addresses: nat)

  function Apply(e: Event, s: Store): Store {
    match e
    case Reconcile(o, p, shared, dedicated, ip) => ReconcilePass(o, p, shared, dedicated, s, ip).store
    case DeleteShared(p, outcome) => Deleted(s, SharedKey(p), outcome)
    case DeleteDedicated(p, outcome) => Deleted(s, DedicatedKey(p), outcome)
    case Foreign(k, svc) =>
      if (k in s && s[k].managed) || (svc.Some? && svc.value.managed) then s
      else if svc.Some? then s[k := svc.value] else s - {k}
    case Ingress(k, n) => if k in s then s[k := s[k].(ingress := n)] else s
  }

  function Run(es: seq<Event>, s: Store): Store
    decreases |es|
  {
    if es == [] then s else Run(es[1..], Apply(es[0], s))
  }

  const EXTERNAL := "-external"

  predicate HasSuffix(s: string, suffix: string) {
    |s| >= |suffix| && s[|s| - |suffix|..] == suffix
  }

  /** The managed services that share the common address. */
  predicate IsShared(s: Store, k: ObjectKey) {
    k in s && s[k].managed && HasSuffix(k.name, EXTERNAL)
  }

  /** Every shared service has one port, and no two have the same. */
  ghost predicate UniquePorts(s: Store) {
    && (forall k :: k in s && IsShared(s, k) ==> |s[k].ports| == 1)
    && (forall k, l :: k in s && l in s && k != l && IsShared(s, k) && IsShared(s, l) ==> s[k].ports[0] != s[l].ports[0])
  }

  lemma SuffixOf(a: string, suffix: string)
    ensures HasSuffix(a + suffix, suffix)
  {
    assert (a + suffix)[|a|..] == suffix;
  }

  lemma KeysAreTold(p: Postgres, q: Postgres)
    ensures HasSuffix(SharedKey(p).name, EXTERNAL)
    ensures !HasSuffix(DedicatedKey(p).name, EXTERNAL)
    ensures SharedKey(p) != DedicatedKey(q)
  {
    SuffixOf(ResourceName(p), EXTERNAL);
    var n := DedicatedServiceName(p);
    assert n[|n| - 1] == 'd';
    var m := DedicatedServiceName(q);
    assert m[|m| - 1] == 'd';
    assert |n| >= |EXTERNAL| ==> n[|n| - |EXTERNAL|..][|EXTERNAL| - 1] == n[|n| - 1];
    assert SharedServiceName(p)[|SharedServiceName(p)| - 1] == 'l';
  }

  lemma ApplyKeepsUniquePorts(e: Event, s: Store)
    requires UniquePorts(s)
    ensures UniquePorts(Apply(e, s))
  {
    if e.Reconcile? {
      var first := SharedPass(e.options, e.p, e.shared, s, e.ip).store;
      SharedPassShape(e.options, e.p, e.shared, s, e.ip);
      OneKeyChanged(s, first, SharedKey(e.p));
      DedicatedPassShape(e.options, e.p, e.dedicated, first);
      OneKeyChanged(first, Apply(e, s), DedicatedKey(e.p));
    } else if e.Foreign? {
      OneKeyChanged(s, Apply(e, s), e.key);
    }
  }

  ghost predicate AgreeExcept(s: Store, t: Store, key: ObjectKey) {
    forall k :: k != key ==> (k in t <==> k in s) && (k in s ==> t[k] == s[k])
  }

  /** What a change of one key may do without breaking uniqueness. */
  predicate Harmless(s: Store, t: Store, key: ObjectKey) {
    IsShared(t, key) ==>
      && |t[key].ports| == 1
      && ((IsShared(s, key) && t[key].ports == s[key].ports) || !PortInUse(s, t[key].ports[0]))
  }

  lemma OneKeyChanged(s: Store, t: Store, key: ObjectKey)
    requires UniquePorts(s) && AgreeExcept(s, t, key) && Harmless(s, t, key)
    ensures UniquePorts(t)
  {
    forall k | k in t && k != key && IsShared(t, k) && IsShared(t, key)
      ensures t[k].ports[0] != t[key].ports[0]
    {
      assert IsShared(s, k) && UsesPort(s, k, t[k].ports[0]);
      assert PortInUse(s, t[k].ports[0]);
    }
  }

  lemma SharedPassShape(o: Options, p: Postgres, c: Calls, s: Store, ip: string)
    ensures var t := SharedPass(o, p, c, s, ip).store; var k := SharedKey(p);
            && AgreeExcept(s, t, k)
            && (k in s && k in t ==> t[k].managed == s[k].managed && t[k].ip == s[k].ip && t[k].ports == s[k].ports)
            && (k !in s && k in t ==> NextPort(o, s).Some? && t[k].ports == [NextPort(o, s).value])
            && (k in s && k !in t ==> !p.EnableSharedSvcLB(o.enableForceSharedIP))
  {
  }

  lemma DedicatedPassShape(o: Options, p: Postgres, c: Calls, s: Store)
    ensures var t := DedicatedPass(o, p, c, s).store; AgreeExcept(s, t, DedicatedKey(p)) && Harmless(s, t, DedicatedKey(p))
  {
    KeysAreTold(p, p);
  }

  /** In every run, whatever the options, failures and order of events, the shared services have
      pairwise distinct ports. */
  lemma {:induction false} RunKeepsUniquePorts(es: seq<Event>, s: Store)
    requires UniquePorts(s)
    ensures UniquePorts(Run(es, s))
    decreases |es|
  {
    if es != [] {
      ApplyKeepsUniquePorts(es[0], s);
      RunKeepsUniquePorts(es[1..], Apply(es[0], s));
    }
  }

  /** A shared service that is still there after an event has kept its address and its port. */
  lemma ApplyKeepsSocket(e: Event, s: Store, k: ObjectKey)
    requires IsShared(s, k)
    ensures k in Apply(e, s) ==>
      IsShared(Apply(e, s), k) && Apply(e, s)[k].ip == s[k].ip && Apply(e, s)[k].ports == s[k].ports
  {
    if e.Reconcile? {
      PassKeepsSocket(e.options, e.p, e.shared, e.dedicated, s, e.ip, k);
    }
  }

  lemma PassKeepsSocket(o: Options, p: Postgres, c: Calls, d: Calls, s: Store, ip: string, k: ObjectKey)
    requires IsShared(s, k)
    ensures var t := ReconcilePass(o, p, c, d, s, ip).store;
            k in t ==> IsShared(t, k) && t[k].ip == s[k].ip && t[k].ports == s[k].ports
  {
    KeysAreTold(p, p);
    SharedPassShape(o, p, c, s, ip);
    DedicatedPassShape(o, p, d, SharedPass(o, p, c, s, ip).store);
  }

  /** `k` exists after every event of the run. */
  ghost predicate NeverDeleted(es: seq<Event>, s: Store, k: ObjectKey)
    decreases |es|
  {
    k in s && (es == [] || NeverDeleted(es[1..], Apply(es[0], s), k))
  }

  /** A shared service keeps its address and port through every run in which it is not deleted. */
  lemma {:induction false} RunKeepsSocket(es: seq<Event>, s: Store, k: ObjectKey)
    requires IsShared(s, k) && NeverDeleted(es, s, k)
    ensures IsShared(Run(es, s), k) && Run(es, s)[k].ip == s[k].ip && Run(es, s)[k].ports == s[k].ports
    decreases |es|
  {
    if es != [] {
      ApplyKeepsSocket(es[0], s, k);
      RunKeepsSocket(es[1..], Apply(es[0], s), k);
    }
  }

  /** Only a deletion, or a reconciliation of an instance that does not want it, removes a shared service. */
  lemma OnlyDeletionRemoves(e: Event, s: Store, k: ObjectKey)
    requires IsShared(s, k) && k !in Apply(e, s)
    ensures || (e.DeleteShared? && SharedKey(e.p) == k)
            || (e.Reconcile? && SharedKey(e.p) == k && !e.p.EnableSharedSvcLB(e.options.enableForceSharedIP))
  {
    if e.Reconcile? || e.DeleteDedicated? {
      KeysAreTold(e.p, e.p);
    }
    if e.Reconcile? {
      SharedPassShape(e.options, e.p, e.shared, s, e.ip);
      DedicatedPassShape(e.options, e.p, e.dedicated, SharedPass(e.options, e.p, e.shared, s, e.ip).store);
    }
  }

  lemma {:induction false} RunStep(es: seq<Event>, e: Event, s: Store)
    ensures Run(es + [e], s) == Apply(e, Run(es, s))
    decreases |es|
  {
    if es == [] {
      assert Run([e], s) == Run([], Apply(e, s));
    } else {
      assert (es + [e])[1..] == es[1..] + [e];
      RunStep(es[1..], e, Apply(es[0], s));
    }
  }

  /** The shared service `k` is there after the first `i` events, with these ports. */
  ghost predicate HasPorts(es: seq<Event>, s: Store, i: nat, k: ObjectKey, ports: seq<int32>)
    requires i <= |es|
  {
    var t := Run(es[..i], s);
    IsShared(t, k) && t[k].ports == ports
  }

  /** Event `i` is a pass over the service's own instance that found no such service. */
  ghost predicate IsMadeBy(es: seq<Event>, s: Store, i: nat, k: ObjectKey)
    requires i < |es|
  {
    es[i].Reconcile? && k == SharedKey(es[i].p) && k !in Run(es[..i], s)
  }

  /** Its one port is the next one of the range configured for that event, and lies in the range. */
  ghost predicate IsAllocatedBy(es: seq<Event>, s: Store, i: nat, ports: seq<int32>)
    requires i < |es| && es[i].Reconcile?
  {
    var o, port := es[i].options, NextPort(es[i].options, Run(es[..i], s));
    port.Some? && ports == [port.value] && (1 <= o.portRangeSize && RangeFits(o) ==> InRange(o, port.value))
  }

  ghost predicate KeepsPorts(es: seq<Event>, s: Store, lo: nat, n: nat, k: ObjectKey, ports: seq<int32>)
    requires n <= |es|
  {
    forall j: nat :: lo <= j <= n ==> HasPorts(es, s, j, k, ports)
  }

  /** Event `i` made and allocated them, and they have stayed the same since. */
  ghost predicate IsOrigin(es: seq<Event>, s: Store, i: nat, n: nat, k: ObjectKey, ports: seq<int32>)
    requires i < n <= |es|
  {
    IsMadeBy(es, s, i, k) && IsAllocatedBy(es, s, i, ports) && KeepsPorts(es, s, i + 1, n, k, ports)
  }

  ghost predicate HasAnOrigin(es: seq<Event>, s: Store, n: nat, k: ObjectKey, ports: seq<int32>)
    requires n <= |es|
  {
    KeepsPorts(es, s, 0, n, k, ports) || exists i: nat :: i < n && IsOrigin(es, s, i, n, k, ports)
  }

  /** Every shared service of a run has had its port since the start, or since the event of the run that
      made it, which took the port from the range configured then. */
  lemma EveryPortHasAnOrigin(es: seq<Event>, s: Store, k: ObjectKey)
    requires IsShared(Run(es, s), k)
    ensures HasAnOrigin(es, s, |es|, k, Run(es, s)[k].ports)
  {
    assert es[..|es|] == es;
    OriginOf(es, s, |es|, k, Run(es, s)[k].ports);
  }

  lemma {:induction false} OriginOf(es: seq<Event>, s: Store, n: nat, k: ObjectKey, ports: seq<int32>)
    requires n <= |es| && HasPorts(es, s, n, k, ports)
    ensures HasAnOrigin(es, s, n, k, ports)
  {
    if n > 0 {
      var before := Run(es[..n - 1], s);
      assert es[..n] == es[..n - 1] + [es[n - 1]];
      RunStep(es[..n - 1], es[n - 1], s);
      if IsShared(before, k) {
        ApplyKeepsSocket(es[n - 1], before, k);
        OriginOf(es, s, n - 1, k, ports);
        OriginStays(es, s, n - 1, n, k, ports);
      } else {
        NewSharedInRange(es[n - 1], before, k);
        assert IsOrigin(es, s, n - 1, n, k, ports);
      }
    }
  }

  lemma OriginStays(es: seq<Event>, s: Store, m: nat, n: nat, k: ObjectKey, ports: seq<int32>)
    requires n == m + 1 <= |es| && HasAnOrigin(es, s, m, k, ports) && HasPorts(es, s, n, k, ports)
    ensures HasAnOrigin(es, s, n, k, ports)
  {
    if KeepsPorts(es, s, 0, m, k, ports) {
      PortsAreKept(es, s, 0, m, n, k, ports);
    } else {
      var i: nat :| i < m && IsOrigin(es, s, i, m, k, ports);
      PortsAreKept(es, s, i + 1, m, n, k, ports);
      assert IsOrigin(es, s, i, n, k, ports);
    }
  }

  lemma PortsAreKept(es: seq<Event>, s: Store, lo: nat, m: nat, n: nat, k: ObjectKey, ports: seq<int32>)
    requires n == m + 1 <= |es| && KeepsPorts(es, s, lo, m, k, ports) && HasPorts(es, s, n, k, ports)
    ensures KeepsPorts(es, s, lo, n, k, ports)
  {
    forall j: nat | lo <= j <= n
      ensures HasPorts(es, s, j, k, ports)
    {
      if j != n {
        assert j <= m;
      }
    }
  }

  lemma NewSharedInRange(e: Event, s: Store, k: ObjectKey)
    requires !IsShared(s, k) && IsShared(Apply(e, s), k)
    ensures e.Reconcile? && k == SharedKey(e.p) && k !in s
    ensures NextPort(e.options, s).Some? && Apply(e, s)[k].ports == [NextPort(e.options, s).value]
    ensures 1 <= e.options.portRangeSize && RangeFits(e.options) ==> InRange(e.options, Apply(e, s)[k].ports[0])
  {
    if e.Reconcile? {
      var mid := SharedPass(e.options, e.p, e.shared, s, e.ip).store;
      assert k != DedicatedKey(e.p) by {
        KeysAreTold(e.p, e.p);
      }
      assert k in mid && mid[k] == Apply(e, s)[k] by {
        DedicatedPassShape(e.options, e.p, e.dedicated, mid);
      }
      SharedPassShape(e.options, e.p, e.shared, s, e.ip);
      AllocatedInRange(e.options, s);
    } else {
      OthersAddNothing(e, s, k);
    }
  }

  lemma OthersAddNothing(e: Event, s: Store, k: ObjectKey)
    requires !e.Reconcile? && IsShared(Apply(e, s), k)
    ensures IsShared(s, k)
  {
  }

  // ------------------------------------------------- frame and idempotence

  /** A pass touches no service but the two of its instance; in particular none in another namespace. */
  lemma PassIsFramed(o: Options, p: Postgres, c: Calls, d: Calls, s: Store, ip: string, k: ObjectKey)
    requires k.ns != ResourceNamespace(p) || (k != SharedKey(p) && k != DedicatedKey(p))
    ensures var s' := ReconcilePass(o, p, c, d, s, ip).store;
            (k in s' <==> k in s) && (k in s ==> s'[k] == s[k])
  {
    SharedPassShape(o, p, c, s, ip);
    DedicatedPassShape(o, p, d, SharedPass(o, p, c, s, ip).store);
  }

  /** At least one of the two services is always wanted, and both only when sharing is forced. */
  lemma OneServiceIsWanted(p: Postgres, force: bool)
    ensures p.EnableSharedSvcLB(force) || p.EnableDedicatedSvcLB()
    ensures p.EnableSharedSvcLB(force) && p.EnableDedicatedSvcLB() ==> force
  {
  }

  function CalmPass(o: Options, p: Postgres, s: Store, ip: string): Pass {
    ReconcilePass(o, p, CALM, CALM, s, ip)
  }

  /** A pass that reports no error has left every wanted service right, and one without failing calls has
      removed the unwanted ones; that one reports an error exactly if there was no port. */
  lemma PassIsRight(o: Options, p: Postgres, c: Calls, d: Calls, s: Store, ip: string)
    ensures var r := ReconcilePass(o, p, c, d, s, ip);
            r.ok ==>
              && (p.EnableSharedSvcLB(o.enableForceSharedIP) ==> SharedKey(p) in r.store && IsRightShared(o, p, r.store[SharedKey(p)]))
              && (p.EnableDedicatedSvcLB() ==> DedicatedKey(p) in r.store && IsRightDedicated(o, p, r.store[DedicatedKey(p)]))
    ensures var r := CalmPass(o, p, s, ip);
            && (r.ok <==> !SharedIsBlocked(o, p, s))
            && (!p.EnableSharedSvcLB(o.enableForceSharedIP) ==> SharedKey(p) !in r.store)
            && (!p.EnableDedicatedSvcLB() ==> DedicatedKey(p) !in r.store)
  {
    KeysAreTold(p, p);
    var first := SharedPass(o, p, c, s, ip);
    DedicatedPassShape(o, p, d, first.store);
    DedicatedPassShape(o, p, CALM, SharedPass(o, p, CALM, s, ip).store);
    if ReconcilePass(o, p, c, d, s, ip).ok {
      if p.EnableSharedSvcLB(o.enableForceSharedIP) {
        SharedIsRight(o, p, c, s, ip);
      }
      if p.EnableDedicatedSvcLB() {
        DedicatedIsRight(o, p, d, first.store);
      }
    }
  }

  /** The shared service is wanted, missing, and there is no port for it. */
  predicate SharedIsBlocked(o: Options, p: Postgres, s: Store) {
    p.EnableSharedSvcLB(o.enableForceSharedIP) && SharedKey(p) !in s && NextPort(o, s).None?
  }

  /** The instance's own dedicated service is the only user of a port of the range and gives it up,
      or it is the only managed service and is removed. */
  predicate DedicatedReleasesPort(o: Options, p: Postgres, s: Store) {
    var d := DedicatedKey(p);
    && d in s && s[d].managed
    && (|| (&& |s[d].ports| > 0 && InRange(o, s[d].ports[0])
            && !PortInUse(s - {d}, s[d].ports[0])
            && (p.EnableDedicatedSvcLB() ==> DedicatedPort(p) != s[d].ports[0]))
        || (!p.EnableDedicatedSvcLB() && ManagedKeys(s) == {d}))
  }

  /** A second pass without failing calls changes nothing, with one exception: when the first pass
      found no port for the shared service and its dedicated half then released one, the second pass
      creates the shared service. */
  lemma SecondPassIsIdle(o: Options, p: Postgres, s: Store, ip1: string, ip2: string)
    ensures var first := CalmPass(o, p, s, ip1).store;
            CalmPass(o, p, first, ip2).store == first <==> !(SharedIsBlocked(o, p, s) && DedicatedReleasesPort(o, p, s))
  {
    if SharedIsBlocked(o, p, s) {
      PassAfterABlockedOne(o, p, s, ip1, ip2);
      BlockedPass(o, p, s);
    } else {
      PassAfterAnother(o, p, s, ip1, ip2);
    }
  }

  /** Then it depends on the port that the dedicated half has left. */
  lemma PassAfterABlockedOne(o: Options, p: Postgres, s: Store, ip1: string, ip2: string)
    requires SharedIsBlocked(o, p, s)
    ensures var first := CalmPass(o, p, s, ip1).store;
            && first == DedicatedPass(o, p, CALM, s).store && SharedKey(p) !in first
            && (NextPort(o, first).Some? <==> SharedKey(p) in CalmPass(o, p, first, ip2).store)
            && (NextPort(o, first).None? ==> CalmPass(o, p, first, ip2).store == first)
  {
    KeysAreTold(p, p);
    var first := CalmPass(o, p, s, ip1).store;
    DedicatedPassShape(o, p, CALM, s);
    DedicatedPassShape(o, p, CALM, SharedPass(o, p, CALM, first, ip2).store);
    DedicatedPassTwice(o, p, s);
  }

  predicate SharedIsSettled(o: Options, p: Postgres, s: Store) {
    var k := SharedKey(p);
    if p.EnableSharedSvcLB(o.enableForceSharedIP) then k in s && s[k] == RefreshShared(o, p, s[k]) else k !in s
  }

  lemma SharedPassSettles(o: Options, p: Postgres, s: Store, ip: string)
    requires !SharedIsBlocked(o, p, s)
    ensures SharedIsSettled(o, p, SharedPass(o, p, CALM, s, ip).store)
    ensures SharedIsSettled(o, p, s) ==> SharedPass(o, p, CALM, s, ip).store == s
  {
  }

  lemma PassAfterAnother(o: Options, p: Postgres, s: Store, ip1: string, ip2: string)
    requires !SharedIsBlocked(o, p, s)
    ensures var first := CalmPass(o, p, s, ip1).store; CalmPass(o, p, first, ip2).store == first
  {
    KeysAreTold(p, p);
    var mid := SharedPass(o, p, CALM, s, ip1).store;
    var first := DedicatedPass(o, p, CALM, mid).store;
    SharedPassSettles(o, p, s, ip1);
    DedicatedPassShape(o, p, CALM, mid);
    SharedPassSettles(o, p, first, ip2);
    DedicatedPassTwice(o, p, mid);
  }

  /** The instance when it had an address and a port of its own. */
  function Before(p: Postgres, ip: string, port: int32): Postgres {
    p.(dedicatedIP := Some(ip), dedicatedPort := Some(port))
  }

  /** The dedicated service of that time. */
  function Left(p: Postgres, ip: string, port: int32): Store
    requires ip != ""
  {
    map[DedicatedKey(p) := NewDedicated(Ports(port, 1), Before(p, ip, port))]
  }

  lemma OnlyPortIsTaken(s: Store, k: ObjectKey, port: int32)
    requires k in s && s[k].managed && s[k].ports == [port] && port < MAX_INT32
    ensures NextPort(Ports(port, 1), s).None?
  {
    assert k in ManagedKeys(s) && UsesPort(s, k, port);
    AllocationIsExact(Ports(port, 1), s, port);
  }

  lemma LeftIsBlocked(p: Postgres, ip: string, port: int32)
    requires p.dedicatedIP.None? && ip != "" && port != 0 && port < MAX_INT32
    ensures SharedIsBlocked(Ports(port, 1), p, Left(p, ip, port)) && DedicatedReleasesPort(Ports(port, 1), p, Left(p, ip, port))
  {
    KeysAreTold(p, p);
    OnlyPortIsTaken(Left(p, ip, port), DedicatedKey(p), port);
    assert ManagedKeys(Left(p, ip, port)) == {DedicatedKey(p)};
  }

  lemma LeftByAPass(p: Postgres, ip: string, port: int32, anyIP: string)
    requires ip != "" && port != 0
    ensures CalmPass(Ports(port, 1), Before(p, ip, port), map[], anyIP).store == Left(p, ip, port)
  {
    assert DedicatedKey(Before(p, ip, port)) == DedicatedKey(p);
  }

  /** An instance gives its own address up whose dedicated service, made by a pass over an empty store,
      holds the only port of the range: the first pass after that removes the service only when it has
      found no port for the shared one, and the second pass makes the shared one. */
  lemma SecondPassCanAct(p: Postgres, ip: string, port: int32, ip0: string, ip1: string, ip2: string)
    requires p.dedicatedIP.None? && ip != "" && port != 0 && port < MAX_INT32
    ensures var o := Ports(port, 1);
            var s := CalmPass(o, Before(p, ip, port), map[], ip0).store;
            var first := CalmPass(o, p, s, ip1).store;
            SharedKey(p) !in first && SharedKey(p) in CalmPass(o, p, first, ip2).store
  {
    LeftByAPass(p, ip, port, ip0);
    LeftIsBlocked(p, ip, port);
    PassAfterABlockedOne(Ports(port, 1), p, Left(p, ip, port), ip1, ip2);
    BlockedPass(Ports(port, 1), p, Left(p, ip, port));
  }

  lemma DedicatedPassTwice(o: Options, p: Postgres, s: Store)
    ensures var t := DedicatedPass(o, p, CALM, s).store; DedicatedPass(o, p, CALM, t).store == t
  {
  }

  /** A port of another service than `d` is in use in both stores or in neither. */
  lemma OthersUseTheSame(s: Store, t: Store, d: ObjectKey)
    requires AgreeExcept(s, t, d)
    ensures forall q :: PortInUse(t, q) <==> PortInUse(s - {d}, q) || UsesPort(t, d, q)
  {
    forall q | PortInUse(s - {d}, q)
      ensures PortInUse(t, q)
    {
      var k :| k in s - {d} && UsesPort(s - {d}, k, q);
      assert k in t && UsesPort(t, k, q);
    }
    forall q | PortInUse(t, q) && !UsesPort(t, d, q)
      ensures PortInUse(s - {d}, q)
    {
      var k :| k in t && UsesPort(t, k, q);
      assert k in s - {d} && UsesPort(s - {d}, k, q);
    }
  }

  lemma BlockedPass(o: Options, p: Postgres, s: Store)
    requires SharedIsBlocked(o, p, s)
    ensures NextPort(o, DedicatedPass(o, p, CALM, s).store).Some? <==> DedicatedReleasesPort(o, p, s)
  {
    var d := DedicatedKey(p);
    var t := DedicatedPass(o, p, CALM, s).store;
    AllocationIsExact(o, s, 0);
    DedicatedPassShape(o, p, CALM, s);
    OthersUseTheSame(s, t, d);
    assert forall k :: k != d ==> (k in ManagedKeys(t) <==> k in ManagedKeys(s));
    if ManagedKeys(t) == {} {
      assert forall k :: k in ManagedKeys(s) ==> k == d;
      assert ManagedKeys(s) == {d};
    } else {
      AllocationIsExact(o, t, 0);
      assert !p.EnableDedicatedSvcLB() ==> d !in ManagedKeys(t);
      assert !p.EnableDedicatedSvcLB() ==> ManagedKeys(s) != {d};
    }
  }
}
