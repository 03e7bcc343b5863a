/** From the shared service over the instance's status to the ingress policy: the status controller
    derives the socket, the main controller opens its port. */
module SocketChain {
  import opened Kube
  import opened Names
  import opened LoadBalancers
  import opened Allocation

  /** The part of the instance's status that holds sockets. */
  datatype Status = Status(socket: Socket, additional: seq<Socket>)

  const NO_SOCKET := Socket("", 0)
  const EMPTY_STATUS := Status(NO_SOCKET, [])

  function SocketOf(svc: Service): Socket {
    Socket(svc.ip, if |svc.ports| > 0 then svc.ports[0] else 0)
  }

  /** The dedicated service counts only once exactly one address has been reported for it. */
  predicate Usable(s: Store, k: ObjectKey, get: Outcome) {
    get == Done && k in s && s[k].ingress == 1
  }

  function Derived(p: Postgres, force: bool, s: Store, getShared: Outcome, getDedicated: Outcome, st: Status): Status {
    var sharedFound := getShared == Done && SharedKey(p) in s;
    if !p.EnableDedicatedSvcLB() then
      if sharedFound then Status(SocketOf(s[SharedKey(p)]), []) else st.(socket := NO_SOCKET)
    else
      var dedicatedFound := Usable(s, DedicatedKey(p), getDedicated);
      if force then
        Status(if sharedFound then SocketOf(s[SharedKey(p)]) else NO_SOCKET,
               if dedicatedFound then [SocketOf(s[DedicatedKey(p)])] else st.additional)
      else
        st.(socket := if dedicatedFound then SocketOf(s[DedicatedKey(p)]) else NO_SOCKET)
  }

  /** The fresh copy of the instance that the status controller works on. */
  class Owner {
    const spec: Postgres
    var status: Status

    constructor (spec: Postgres, status: Status)
      ensures this.spec == spec && this.status == status
    {
      this.spec, this.status := spec, status;
    }
  }

  class StatusReconciler {
    const client: ServiceClient
    const enableForceSharedIP: bool

    constructor (client: ServiceClient, force: bool)
      ensures this.client == client && enableForceSharedIP == force
    {
      this.client, this.enableForceSharedIP := client, force;
    }

    /** Every service has at least one port; the API server sees to that. */
    method UpdateSocket(owner: Owner, getShared: Outcome, getDedicated: Outcome)
      requires forall k :: k in client.services ==> |client.services[k].ports| > 0
      modifies owner
      ensures owner.status == Derived(owner.spec, enableForceSharedIP, client.services, getShared, getDedicated, old(owner.status))
    {
      if !owner.spec.EnableDedicatedSvcLB() {
        var shared := client.Get(SharedKey(owner.spec), getShared);
        if shared.Ok? {
          owner.status := owner.status.(socket := Socket(shared.value.ip, shared.value.ports[0]));
          owner.status := owner.status.(additional := []);
        } else {
          owner.status := owner.status.(socket := NO_SOCKET);
        }
      } else {
        var dedicated := client.Get(DedicatedKey(owner.spec), getDedicated);
        if enableForceSharedIP {
          var shared := client.Get(SharedKey(owner.spec), getShared);
          if shared.Ok? {
            owner.status := owner.status.(socket := Socket(shared.value.ip, shared.value.ports[0]));
          } else {
            owner.status := owner.status.(socket := NO_SOCKET);
          }
          if dedicated.Ok? && dedicated.value.ingress == 1 {
            owner.status := owner.status.(additional := [Socket(dedicated.value.ip, dedicated.value.ports[0])]);
          }
        } else {
          if dedicated.Ok? && dedicated.value.ingress == 1 {
            owner.status := owner.status.(socket := Socket(dedicated.value.ip, dedicated.value.ports[0]));
          } else {
            owner.status := owner.status.(socket := NO_SOCKET);
          }
        }
      }
    }
  }

  /** An instance with its own address: once the load balancer has reported one address for the service that a
      successful pass has made, the status shows exactly the wanted address and port, as the additional
      socket if sharing is forced and as the only one if not; before that it shows none or the old one. */
  lemma DedicatedIsShown(o: Options, p: Postgres, c: Calls, s: Store, reported: nat, getShared: Outcome, st: Status)
    requires p.EnableDedicatedSvcLB() && DedicatedPass(o, p, c, s).ok
    ensures var k := DedicatedKey(p); var t := DedicatedPass(o, p, c, s).store;
            var u := t[k := t[k].(ingress := reported)];
            var own := Socket(p.dedicatedIP.value, if p.dedicatedPort.None? || p.dedicatedPort.value == 0 then 5432 else p.dedicatedPort.value);
            var after := Derived(p, o.enableForceSharedIP, u, getShared, Done, st);
            if o.enableForceSharedIP then after.additional == if reported == 1 then [own] else st.additional
            else after == Status(if reported == 1 then own else Socket("", 0), st.additional)
  {
    DedicatedIsRight(o, p, c, s);
  }

  /** An instance that uses the shared service shows its address and port, and no old additional socket unless
      it has an address of its own; without the service it shows no socket. */
  lemma SharedIsShown(p: Postgres, force: bool, s: Store, get: Outcome, getDedicated: Outcome, st: Status)
    requires p.EnableDedicatedSvcLB() ==> force
    requires SharedKey(p) in s ==> |s[SharedKey(p)].ports| > 0
    ensures var after := Derived(p, force, s, get, getDedicated, st);
            && after.socket == (if get == Done && SharedKey(p) in s then Socket(s[SharedKey(p)].ip, s[SharedKey(p)].ports[0]) else Socket("", 0))
            && (!p.EnableDedicatedSvcLB() ==> after.additional == if get == Done && SharedKey(p) in s then [] else st.additional)
  {
  }

  // ------------------------------------------------- the whole system

  /** All services, the status of every instance by name, the port of every ingress policy by name. */
  datatype System = System(services: Store, statuses: map<string, Status>, policies: map<string, int32>)

  function StatusOf(sys: System, name: string): Status {
    if name in sys.statuses then sys.statuses[name] else EMPTY_STATUS
  }

  datatype Step =
    /** A change of services outside of the main controller's pass. */
    | ServiceChange(event: Event)
    /** One pass of the status controller; `write` is the outcome of the final status update. */
    | StatusPass(p: Postgres, force: bool, getShared: Outcome, getDedicated: Outcome, write: Outcome)
    /** One pass of the main controller from its load balancer step on; `exporter` is the outcome of
        what lies between that step and the policy, `policy` that of writing the policy. */
    | MainPass(p: Postgres, options: Options, shared: Calls, dedicated: Calls, ip: string,
               exporter: Outcome, policy: Outcome)
    | PolicyGone(name: string)

  /** The pass gets to writing the policy: services are fine and the socket is known. */
  predicate OpensPolicy(step: Step, sys: System)
    requires step.MainPass?
  {
    && ReconcilePass(step.options, step.p, step.shared, step.dedicated, sys.services, step.ip).ok
    && step.exporter == Done
    && StatusOf(sys, step.p.name).socket.port != 0
  }

  function Next(step: Step, sys: System): System {
    match step
    case ServiceChange(e) => sys.(services := Apply(e, sys.services))
    case StatusPass(p, force, getShared, getDedicated, write) =>
      var st := Derived(p, force, sys.services, getShared, getDedicated, StatusOf(sys, p.name));
      if write == Refused then sys else sys.(statuses := sys.statuses[p.name := st])
    case MainPass(p, o, shared, dedicated, ip, exporter, policy) =>
      var port := StatusOf(sys, p.name).socket.port;
      sys.(services := ReconcilePass(o, p, shared, dedicated, sys.services, ip).store,
           policies := if OpensPolicy(step, sys) && policy != Refused then sys.policies[ResourceName(p) := port]
                       else sys.policies)
    case PolicyGone(name) => sys.(policies := sys.policies - {name})
  }

  function After(steps: seq<Step>, sys: System): System
    decreases |steps|
  {
    if steps == [] then sys else After(steps[1..], Next(steps[0], sys))
  }

  /** The instance's shared service exists with this address and port, and the status names
      either exactly that socket or none. */
  predicate Seen(sys: System, p: Postgres, socket: Socket) {
    && IsShared(sys.services, SharedKey(p))
    && sys.services[SharedKey(p)].ip == socket.ip
    && sys.services[SharedKey(p)].ports == [socket.port]
    && StatusOf(sys, p.name).socket in {socket, NO_SOCKET}
  }

  /** What happens under the name of the instance still concerns the same service and uses the shared socket. */
  predicate StillUsesShared(step: Step, p: Postgres) {
    match step
    case StatusPass(q, force, _, _, _) =>
      q.name == p.name ==> SharedKey(q) == SharedKey(p) && (q.EnableDedicatedSvcLB() ==> force)
    case _ => true
  }

  predicate SharedPresent(sys: System, p: Postgres) {
    SharedKey(p) in sys.services
  }

  /** Along all steps the service stays and its socket is the one in use. */
  predicate KeepsUsing(steps: seq<Step>, sys: System, p: Postgres)
    decreases |steps|
  {
    steps == [] ||
    (StillUsesShared(steps[0], p) && SharedPresent(Next(steps[0], sys), p) && KeepsUsing(steps[1..], Next(steps[0], sys), p))
  }

  /** A status pass that reads the service and writes the status has seen it. */
  lemma StatusPassSees(sys: System, step: Step)
    requires step.StatusPass? && step.getShared == Done && step.write != Refused
    requires step.p.EnableDedicatedSvcLB() ==> step.force
    requires UniquePorts(sys.services) && IsShared(sys.services, SharedKey(step.p))
    ensures Seen(Next(step, sys), step.p, SocketOf(sys.services[SharedKey(step.p)]))
    ensures StatusOf(Next(step, sys), step.p.name).socket == SocketOf(sys.services[SharedKey(step.p)])
  {
  }

  lemma StepKeepsSeen(step: Step, sys: System, p: Postgres, socket: Socket)
    requires Seen(sys, p, socket)
    requires StillUsesShared(step, p) && SharedPresent(Next(step, sys), p)
    ensures Seen(Next(step, sys), p, socket)
  {
    match step
    case ServiceChange(e) =>
      ApplyKeepsSocket(e, sys.services, SharedKey(p));
    case MainPass(q, o, shared, dedicated, ip, _, _) =>
      ApplyKeepsSocket(Reconcile(o, q, shared, dedicated, ip), sys.services, SharedKey(p));
    case StatusPass(q, force, getShared, getDedicated, write) =>
    case PolicyGone(_) =>
  }

  lemma {:induction false} StepsKeepSeen(steps: seq<Step>, sys: System, p: Postgres, socket: Socket)
    requires Seen(sys, p, socket) && KeepsUsing(steps, sys, p)
    ensures Seen(After(steps, sys), p, socket)
    decreases |steps|
  {
    if steps != [] {
      StepKeepsSeen(steps[0], sys, p, socket);
      StepsKeepSeen(steps[1..], Next(steps[0], sys), p, socket);
    }
  }

  /** Once a status pass has seen the shared service, then after any steps during which the service is
      not deleted and stays in use, a main pass that writes the instance's policy leaves it opening
      exactly the port of the service; a main pass that does not get that far leaves the policy alone. */
  lemma PolicyOpensTheSharedPort(sys: System, see: Step, steps: seq<Step>, main: Step)
    requires see.StatusPass? && see.getShared == Done && see.write != Refused
    requires see.p.EnableDedicatedSvcLB() ==> see.force
    requires UniquePorts(sys.services) && IsShared(sys.services, SharedKey(see.p))
    requires KeepsUsing(steps, Next(see, sys), see.p)
    requires main.MainPass? && main.p.name == see.p.name && SharedKey(main.p) == SharedKey(see.p)
    ensures var before := After(steps, Next(see, sys));
            var after := Next(main, before);
            if OpensPolicy(main, before) && main.policy != Refused
            then after.policies == before.policies[ResourceName(main.p) := sys.services[SharedKey(see.p)].ports[0]]
            else after.policies == before.policies
  {
    var socket := SocketOf(sys.services[SharedKey(see.p)]);
    StatusPassSees(sys, see);
    StepsKeepSeen(steps, Next(see, sys), see.p, socket);
  }
}
