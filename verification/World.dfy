/** The two clusters as one instance's passes see them: a store of objects that the rest of the world
    changes between any two calls, calls that may fail, and the history of both. The environment rules
    say what others may do (`May`), the controller's own rules what a call of it may do (`Allowed`);
    what holds in every history that obeys both is proved in module `History`. */
module World {
  import opened Kube
  import opened Names

  // ------------------------------------------------- objects

  /** `PostgresCR`, `Passwords` and `BackupSecret` objects live in the control plane, all others in the
      service cluster. An `OperatorPod` is a pod with the operator's label, a `Pod` any other. */
  datatype Kind =
    | PostgresCR | Passwords | BackupSecret
    | Namespace | ClusterRole | ClusterRoleBinding
    | ConfigMap | Secret | ServiceAccount | Service | Deployment | Pod | OperatorPod
    | Policy | NetworkPolicy | StatefulSet | Postgresql | Job
    | UnknownKind

  predicate IsControlPlane(kind: Kind) { kind == PostgresCR || kind == Passwords || kind == BackupSecret }

  /** A fixed name of the code, or any other text. Derived names begin with "pg" and a letter, digit or
      dash, so they never are one of the fixed ones (`Names.DerivedNamesAreNotFixed`). */
  datatype ObjectName =
    | Exporter | StorageEncryptionKey | InitDB
    | PodEnvironmentConfig | PodEnvironmentSecret | SidecarsConfig
    | Text(text: string)

  datatype Key = Key(kind: Kind, ns: string, name: ObjectName)

  datatype Finalizer = PostgresFinalizer | StorageFinalizer | OtherFinalizer(name: string)

  datatype SubjectKind = ServiceAccountSubject | UserSubject | GroupSubject

  datatype Subject = Subject(kind: SubjectKind, name: string, ns: string)

  /** The entries of config maps that the code knows by name, or any other. */
  datatype DataKey = FluentBitConf | QueriesYaml | InitSQL | OtherEntry(name: string)

  datatype Object =
    | Plain
    | Instance(deleting: bool, finalizers: seq<Finalizer>)
    | Binding(subjects: seq<Subject>)
    | Rules(rules: seq<string>)
    | Data(entries: map<DataKey, string>)
    | StorageKey(passphrase: string, finalizers: seq<Finalizer>)

  type Store = map<Key, Object>

  const FIREWALL := "firewall"
  function NamespaceKey(ns: string): Key { Key(Namespace, "", Text(ns)) }

  /** The objects of one instance, by the names derived from it; `encrypted` is the setting of the
      program that every instance gets a storage key. */
  datatype TargetKeys = TargetKeys(
    encrypted: bool,
    ns: string,
    instance: Key,
    passwords: Key,
    policy: Key,
    standbyIngress: Key,
    standbyEgress: Key,
    sharedLB: Key,
    dedicatedLB: Key,
    exporter: Key,
    clusterService: Key,
    zalando: Key,
    netPol: Key,
    storageSecret: Key,
    initMap: Key,
    initJob: Key)
  {
    predicate Valid() {
      && instance.kind == PostgresCR && passwords.kind == Passwords
      && policy.kind == Policy && standbyIngress.kind == Policy && standbyEgress.kind == Policy
      && sharedLB.kind == Service && sharedLB.ns == ns
      && dedicatedLB.kind == Service && dedicatedLB.ns == ns
      && exporter == Key(Service, ns, Exporter)
      && clusterService.kind == Service && clusterService.ns == ns
      && clusterService != sharedLB && clusterService != dedicatedLB && clusterService != exporter
      && sharedLB != dedicatedLB && sharedLB != exporter && dedicatedLB != exporter && policy != standbyIngress
      && zalando.kind == Postgresql && zalando.ns == ns
      && netPol.kind == NetworkPolicy && netPol.ns == ns
      && storageSecret == Key(Secret, ns, StorageEncryptionKey)
      && initMap == Key(ConfigMap, ns, InitDB)
      && initJob == Key(Job, ns, InitDB)
    }
  }

  type Target = t: TargetKeys | t.Valid() witness EXAMPLE

  const EXAMPLE := KeysOfNames(true, "", "", Text(""), Text(""), Text(""), Text("i"), Text(""), Text("s"), Text("d"), Text(""))

  function TargetOf(p: Postgres, encrypted: bool): Target {
    KeysOfNames(encrypted, ResourceNamespace(p), p.namespace, Text(p.name), Text(PasswordsSecretName(p)), Text(ResourceName(p)),
                Text(StandbyIngressName(p)), Text(StandbyEgressName(p)), Text(SharedServiceName(p)),
                Text(DedicatedServiceName(p)), Text(NetPolName(p)))
  }

  function KeysOfNames(encrypted: bool, ns: string, controlNs: string, instance: ObjectName, passwords: ObjectName, resource: ObjectName,
                       standbyIngress: ObjectName, standbyEgress: ObjectName, shared: ObjectName, dedicated: ObjectName,
                       netPol: ObjectName): TargetKeys
  {
    TargetKeys(
      encrypted,
      ns,
      Key(PostgresCR, controlNs, instance),
      Key(Passwords, controlNs, passwords),
      Key(Policy, FIREWALL, resource),
      Key(Policy, FIREWALL, standbyIngress),
      Key(Policy, FIREWALL, standbyEgress),
      Key(Service, ns, shared),
      Key(Service, ns, dedicated),
      Key(Service, ns, Exporter),
      Key(Service, ns, resource),
      Key(Postgresql, ns, resource),
      Key(NetworkPolicy, ns, netPol),
      Key(Secret, ns, StorageEncryptionKey),
      Key(ConfigMap, ns, InitDB),
      Key(Job, ns, InitDB))
  }

  /** Written by this controller alone: the main ingress policy, both load balancers, the exporter
      service, and the Zalando resources of the instance's namespace. */
  predicate IsOurs(x: Target, k: Key) {
    k == x.policy || k == x.sharedLB || k == x.dedicatedLB || k == x.exporter || IsZalando(x, k)
  }

  predicate IsZalando(x: Target, k: Key) {
    k.kind == Postgresql && k.ns == x.ns
  }

  /** Made on behalf of a Zalando resource: the operator's StatefulSets and cluster service, and the
      passwords secret that the status controller writes. */
  predicate IsDerived(x: Target, k: Key) {
    (k.kind == StatefulSet && k.ns == x.ns) || k == x.clusterService || k == x.passwords
  }

  predicate HasZalando(x: Target, s: Store) {
    exists k :: k in s && IsZalando(x, k)
  }

  predicate IsHeld(o: Object) {
    o.StorageKey? && StorageFinalizer in o.finalizers
  }

  predicate IsDeleting(x: Target, s: Store) {
    x.instance in s && s[x.instance].Instance? ==> s[x.instance].deleting
  }

  // ------------------------------------------------- the rest of the world

  datatype Act = Act(key: Key, obj: Option<Object>)

  /** What happens before a call, and how the call ends. */
  datatype Turn = Turn(acts: seq<Act>, outcome: Outcome)

  /** The environment rules: nobody else touches role bindings, namespaces, the initdb map or the
      storage secret (which may vanish once nothing holds it), creates what only this controller
      creates, or takes the instance's finalizers or its deletion mark away; derived objects are made
      only while a Zalando resource exists. Everything else is free. */
  predicate May(x: Target, s: Store, a: Act) {
    if a.key.kind == ClusterRoleBinding || a.key.kind == Namespace || a.key == x.initMap then false
    else if a.key == x.instance then
      && a.key in s && s[a.key].Instance? && a.obj.Some? && a.obj.value.Instance?
      && a.obj.value.finalizers == s[a.key].finalizers
      && (s[a.key].deleting ==> a.obj.value.deleting)
    else if a.key == x.storageSecret then a.obj.None? && a.key in s && !IsHeld(s[a.key])
    else if IsOurs(x, a.key) || a.key == x.initJob then a.obj.None?
    else if IsDerived(x, a.key) then a.obj.None? || HasZalando(x, s)
    else true
  }

  function Perform(s: Store, a: Act): Store {
    if a.obj.Some? then s[a.key := a.obj.value] else s - {a.key}
  }

  /** Nothing of ours appears, and nothing derived without a Zalando resource. */
  ghost predicate NoNewcomers(x: Target, s: Store, t: Store) {
    forall k :: k in t && k !in s ==> !IsOurs(x, k) && (IsDerived(x, k) ==> HasZalando(x, s))
  }

  /** The instance keeps its finalizers and its deletion mark. */
  ghost predicate InstanceKept(x: Target, s: Store, t: Store) {
    var k := x.instance;
    && (k in t <==> k in s)
    && (k in s && !s[k].Instance? ==> t[k] == s[k])
    && (k in s && s[k].Instance? ==>
          t[k].Instance? && t[k].finalizers == s[k].finalizers && (s[k].deleting ==> t[k].deleting))
  }

  /** What any number of permitted actions amounts to. */
  ghost predicate Interfered(x: Target, s: Store, t: Store) {
    && NoNewcomers(x, s, t)
    && InstanceKept(x, s, t)
    && (forall k: Key :: k.kind == ClusterRoleBinding || k.kind == Namespace || k == x.initMap ==>
          (k in t <==> k in s) && (k in s ==> t[k] == s[k]))
    && (x.storageSecret in t ==> x.storageSecret in s && t[x.storageSecret] == s[x.storageSecret])
    && (x.storageSecret in s && x.storageSecret !in t ==> !IsHeld(s[x.storageSecret]))
    && (x.initJob in t ==> x.initJob in s)
  }

  lemma NoNewZalando(x: Target, s: Store, t: Store)
    requires NoNewcomers(x, s, t)
    ensures HasZalando(x, t) ==> HasZalando(x, s)
  {
    if HasZalando(x, t) {
      var k :| k in t && IsZalando(x, k);
      assert k in s;
    }
  }

  lemma InterferedIsTransitive(x: Target, s: Store, t: Store, u: Store)
    requires Interfered(x, s, t) && Interfered(x, t, u)
    ensures Interfered(x, s, u)
  {
    NoNewZalando(x, s, t);
  }

  lemma ActInterferes(x: Target, s: Store, a: Act)
    requires May(x, s, a)
    ensures Interfered(x, s, Perform(s, a))
  {
  }

  /** Actions that break the environment rules are ignored. */
  function PerformAll(x: Target, s: Store, acts: seq<Act>): Store
    decreases |acts|
  {
    if acts == [] then s
    else PerformAll(x, if May(x, s, acts[0]) then Perform(s, acts[0]) else s, acts[1..])
  }

  lemma {:induction false} ActsInterfere(x: Target, s: Store, acts: seq<Act>)
    ensures Interfered(x, s, PerformAll(x, s, acts))
    decreases |acts|
  {
    if acts != [] {
      var t := if May(x, s, acts[0]) then Perform(s, acts[0]) else s;
      if May(x, s, acts[0]) {
        ActInterferes(x, s, acts[0]);
      }
      ActsInterfere(x, t, acts[1..]);
      InterferedIsTransitive(x, s, t, PerformAll(x, s, acts));
    }
  }

  // ------------------------------------------------- the controller's own calls

  datatype Op =
    | Read(key: Key)
    | List(kind: Kind, ns: string)
    | Create(key: Key, obj: Object)
    | Update(key: Key, obj: Object)
    | Delete(key: Key)
    | DropNamespace(ns: string)

  predicate IsClusterScoped(kind: Kind) {
    kind == Namespace || kind == ClusterRole || kind == ClusterRoleBinding
  }

  /** A deleted namespace takes everything in it along, except what a finalizer still holds. */
  function Cascade(s: Store, ns: string): Store {
    map k | k in s && k != NamespaceKey(ns) &&
      (k.ns != ns || IsControlPlane(k.kind) || IsClusterScoped(k.kind) || IsHeld(s[k])) :: s[k]
  }

  function WithoutNamespace(s: Store, ns: string): Store {
    if NamespaceKey(ns) in s then Cascade(s, ns) else s
  }

  /** What an update stores: a client can not take the deletion mark away, nor set it. */
  function Stored(s: Store, k: Key, v: Object): Object
    requires k in s
  {
    if k.kind == PostgresCR && s[k].Instance? && v.Instance? then v.(deleting := s[k].deleting) else v
  }

  function Effect(op: Op, s: Store): Store {
    match op
    case Read(_) => s
    case List(_, _) => s
    case Create(k, v) => if k in s then s else s[k := v]
    case Update(k, v) => if k in s then s[k := Stored(s, k, v)] else s
    case Delete(k) => s - {k}
    case DropNamespace(ns) => WithoutNamespace(s, ns)
  }

  predicate IsFor(s: Subject, ns: string) {
    s.kind == ServiceAccountSubject && s.ns == ns
  }

  ghost predicate AtMostOnePerNamespace(subjects: seq<Subject>) {
    forall i, j :: 0 <= i < j < |subjects| && subjects[i].kind == ServiceAccountSubject && subjects[j].kind == ServiceAccountSubject
      ==> subjects[i].ns != subjects[j].ns
  }

  ghost predicate GoodBinding(o: Object) {
    o.Binding? ==> AtMostOnePerNamespace(o.subjects)
  }

  /** The instance's objects are gone. */
  predicate AllGone(x: Target, s: Store) {
    forall k :: k in s ==> !IsOurs(x, k) && !IsDerived(x, k)
  }

  /** One call as it went: what it found, what it left, in which mode it was made, how it ended, and the
      tally of the history up to and including it. */
  datatype Entry = Entry(found: Store, after: Store, op: Op, mode: Mode, outcome: Outcome, tally: Tally)

  /** How many calls have failed, and how many of these in a way that matters. */
  datatype Tally = Tally(failed: nat, faults: nat)

  /** What a call leaves that ends in this way. */
  function Carried(op: Op, found: Store, o: Outcome): Store {
    if o == Refused then found else Effect(op, found)
  }

  /** Whether a deletion pass has begun, the number of the current phase, whether it belongs to a pass over a
      new database (a primary or standalone instance that is not a restore), and which calls may fail in it. */
  datatype Mode = Mode(teardown: bool, pass: nat, newDatabase: bool, excuse: Excuse)

  /** What a phase may fail at without an error: nothing in particular; or, in a creation pass, the deletion
      of an unwanted load balancer and the lookups of the restore's source and of the global initdb data;
      or, in a deletion pass, the deletion of the standby policies and of the network policy. */
  datatype Excuse =
    | NoExcuse
    | WhileCreating(noShared: bool, noDedicated: bool, source: Key, template: Key)
    | WhileDeleting

  /** A phase keeps its mode, and a later one has a higher number; deletion is not taken back. */
  predicate Follows(m: Mode, m': Mode) {
    m' == m || (m.pass < m'.pass && (m.teardown ==> m'.teardown))
  }

  /** Objects whose lookup may fail in any phase: failing is taken for absence. */
  predicate IsOptional(k: Key) {
    match k.name
    case Exporter => true
    case InitDB => true
    case PodEnvironmentConfig => true
    case PodEnvironmentSecret => true
    case SidecarsConfig => true
    case _ => false
  }

  predicate MayFail(x: Target, op: Op, excuse: Excuse) {
    || (op.Read? && IsOptional(op.key))
    || match excuse
       case NoExcuse => false
       case WhileCreating(noShared, noDedicated, source, template) =>
         || op == Read(source) || op == Read(template)
         || (noShared && op == Delete(x.sharedLB)) || (noDedicated && op == Delete(x.dedicatedLB))
       case WhileDeleting => op == Delete(x.standbyIngress) || op == Delete(x.standbyEgress) || op == Delete(x.netPol)
  }

  /** The call was answered; what it was to create was missing, what it was to change was there, and so was
      the namespace that it was to delete. Another object that it was to delete may have been missing. */
  predicate Succeeded(op: Op, found: Store, o: Outcome) {
    && o == Done
    && match op
       case Create(k, _) => k !in found
       case Update(k, _) => k in found
       case DropNamespace(ns) => NamespaceKey(ns) in found
       case _ => true
  }

  /** The call has written this object. */
  predicate Writes(e: Entry, k: Key, v: Object) {
    (e.op == Create(k, v) || e.op == Update(k, v)) && Succeeded(e.op, e.found, e.outcome)
  }

  function TallyAfter(x: Target, t: Tally, op: Op, found: Store, o: Outcome, mode: Mode): Tally {
    if Succeeded(op, found, o) then t else Tally(t.failed + 1, if MayFail(x, op, mode.excuse) then t.faults else t.faults + 1)
  }

  /** The call created this object. */
  predicate Makes(e: Entry, k: Key) {
    e.op.Create? && e.op.key == k && k !in e.found && k in e.after
  }

  /** The initdb job may be created only right after the initdb map: a call of the same pass made the map
      and was answered, and nothing but a lookup of the job came in between. */
  predicate MapJustMade(x: Target, log: seq<Entry>, mode: Mode) {
    && |log| >= 2 && log[|log| - 1].op == Read(x.initJob)
    && Makes(log[|log| - 2], x.initMap) && log[|log| - 2].outcome == Done && log[|log| - 2].mode == mode
  }

  /** All but the instance, its storage secret and its initdb map. */
  predicate IsDeletable(x: Target, k: Key) {
    k != x.instance && k != x.storageSecret && k != x.initMap
  }

  /** The controller's rules for a call that comes after `log` and finds the store `s`. */
  ghost predicate Allowed(x: Target, log: seq<Entry>, s: Store, op: Op, mode: Mode) {
    match op
    case Read(_) => true
    case List(_, _) => true
    case Create(k, v) => MayCreate(x, log, s, k, v, mode)
    case Update(k, v) => MayUpdate(x, s, k, v, mode)
    case Delete(k) => IsDeletable(x, k)
    case DropNamespace(ns) => ns == x.ns ==> mode.teardown
  }

  ghost predicate MayCreate(x: Target, log: seq<Entry>, s: Store, k: Key, v: Object, mode: Mode) {
    if k == x.instance || IsDerived(x, k) then false
    else if k == x.storageSecret then x.encrypted && !mode.teardown && IsHeld(v)
    else if k == x.initMap then !mode.teardown
    else if k == x.initJob then !mode.teardown && mode.newDatabase && MapJustMade(x, log, mode)
    else if IsZalando(x, k) then !mode.teardown && (x.encrypted ==> x.storageSecret in s && IsHeld(s[x.storageSecret]))
    else if IsOurs(x, k) then !mode.teardown
    else k.kind == ClusterRoleBinding ==> GoodBinding(v)
  }

  ghost predicate MayUpdate(x: Target, s: Store, k: Key, v: Object, mode: Mode) {
    if k == x.instance then
      k in s ==>
        && s[k].Instance? && v.Instance?
        && (PostgresFinalizer in s[k].finalizers && PostgresFinalizer !in v.finalizers ==> mode.teardown && AllGone(x, s))
    else if k == x.storageSecret then
      k in s && s[k].StorageKey? ==>
        && v.StorageKey? && v.passphrase == s[k].passphrase
        && (IsHeld(s[k]) && !IsHeld(v) ==> mode.teardown && !HasZalando(x, s))
    else if k == x.initMap then false
    else k.kind == ClusterRoleBinding && k in s && GoodBinding(s[k]) ==> GoodBinding(v)
  }

  /** What may be created, updated and deleted in whatever state. */
  ghost predicate IsHarmless(x: Target, k: Key, v: Object) {
    && IsDeletable(x, k) && k != x.initJob && !IsOurs(x, k) && !IsDerived(x, k)
    && (k.kind == ClusterRoleBinding ==> GoodBinding(v))
  }

  /** What the rules allow stays allowed whatever the environment does first. */
  lemma AllowedIsStable(x: Target, log: seq<Entry>, s: Store, t: Store, op: Op, mode: Mode)
    requires Interfered(x, s, t) && Allowed(x, log, s, op, mode)
    ensures Allowed(x, log, t, op, mode)
  {
    NoNewZalando(x, s, t);
    if AllGone(x, s) {
      NothingNewIsGone(x, s, t);
    }
  }

  lemma NothingNewIsGone(x: Target, s: Store, t: Store)
    requires Interfered(x, s, t) && AllGone(x, s)
    ensures AllGone(x, t)
  {
  }

  /** Nobody takes the deletion mark away. */
  lemma DeletionMarkStays(x: Target, log: seq<Entry>, s: Store, found: Store, op: Op, mode: Mode)
    requires Interfered(x, s, found) && Allowed(x, log, found, op, mode) && IsDeleting(x, s)
    ensures IsDeleting(x, found) && IsDeleting(x, Effect(op, found))
  {
    assert InstanceKept(x, s, found);
    CallKeepsDeletionMark(x, log, found, op, mode);
  }

  lemma CallKeepsDeletionMark(x: Target, log: seq<Entry>, s: Store, op: Op, mode: Mode)
    requires Allowed(x, log, s, op, mode) && IsDeleting(x, s)
    ensures IsDeleting(x, Effect(op, s))
  {
  }

  // ------------------------------------------------- histories

  function StateAt(initial: Store, log: seq<Entry>, n: nat): Store
    requires n <= |log|
  {
    if n == 0 then initial else log[n - 1].after
  }

  function TallyAt(log: seq<Entry>, n: nat): Tally
    requires n <= |log|
  {
    if n == 0 then Tally(0, 0) else log[n - 1].tally
  }

  /** Before call `i` only the environment acts; the call has its effect or none. */
  ghost predicate EntryOk(x: Target, initial: Store, log: seq<Entry>, i: nat)
    requires i < |log|
  {
    && Interfered(x, StateAt(initial, log, i), log[i].found)
    && log[i].after == Carried(log[i].op, log[i].found, log[i].outcome)
    && Allowed(x, log[..i], log[i].found, log[i].op, log[i].mode)
    && (i > 0 ==> Follows(log[i - 1].mode, log[i].mode))
    && log[i].tally == TallyAfter(x, TallyAt(log, i), log[i].op, log[i].found, log[i].outcome, log[i].mode)
  }

  ghost predicate HistoryOk(x: Target, initial: Store, log: seq<Entry>) {
    forall i: nat :: i < |log| ==> EntryOk(x, initial, log, i)
  }

  lemma EntryStays(x: Target, initial: Store, log: seq<Entry>, e: Entry, i: nat)
    requires i < |log| && EntryOk(x, initial, log, i)
    ensures EntryOk(x, initial, log + [e], i)
  {
    assert StateAt(initial, log + [e], i) == StateAt(initial, log, i) && TallyAt(log + [e], i) == TallyAt(log, i);
    assert (log + [e])[..i] == log[..i];
  }

  lemma EntryIsAdded(x: Target, initial: Store, log: seq<Entry>, e: Entry)
    requires Interfered(x, StateAt(initial, log, |log|), e.found)
    requires e.after == Carried(e.op, e.found, e.outcome)
    requires Allowed(x, log, e.found, e.op, e.mode)
    requires |log| > 0 ==> Follows(log[|log| - 1].mode, e.mode)
    requires e.tally == TallyAfter(x, TallyAt(log, |log|), e.op, e.found, e.outcome, e.mode)
    ensures EntryOk(x, initial, log + [e], |log|)
  {
    assert StateAt(initial, log + [e], |log|) == StateAt(initial, log, |log|) && (log + [e])[..|log|] == log;
    assert TallyAt(log + [e], |log|) == TallyAt(log, |log|);
  }

  lemma HistoryGrows(x: Target, initial: Store, log: seq<Entry>, e: Entry)
    requires HistoryOk(x, initial, log)
    requires Interfered(x, StateAt(initial, log, |log|), e.found)
    requires e.after == Carried(e.op, e.found, e.outcome)
    requires Allowed(x, log, e.found, e.op, e.mode)
    requires |log| > 0 ==> Follows(log[|log| - 1].mode, e.mode)
    requires e.tally == TallyAfter(x, TallyAt(log, |log|), e.op, e.found, e.outcome, e.mode)
    ensures HistoryOk(x, initial, log + [e])
  {
    EntriesStay(x, initial, log, e);
    EntryIsAdded(x, initial, log, e);
  }

  lemma EntriesStay(x: Target, initial: Store, log: seq<Entry>, e: Entry)
    requires HistoryOk(x, initial, log)
    ensures forall i: nat :: i < |log| ==> EntryOk(x, initial, log + [e], i)
  {
    forall i: nat | i < |log|
      ensures EntryOk(x, initial, log + [e], i)
    {
      EntryStays(x, initial, log, e, i);
    }
  }

  // ------------------------------------------------- the API

  /** The n-th call of a run meets turn `w(n)`: first the environment acts, then the call is carried out
      and ends as the turn says. */
  class Cluster {
    const x: Target
    const w: nat -> Turn
    var objects: Store
    var clock: nat
    ghost const initial: Store
    ghost var log: seq<Entry>
    ghost var mode: Mode
    /** How many calls had been made when the first deletion pass began. */
    ghost var begun: nat

    constructor (x: Target, w: nat -> Turn, objects: Store)
      ensures Valid() && this.x == x && this.w == w && this.objects == initial == objects && log == [] && !mode.teardown
    {
      this.x, this.w, this.objects, clock := x, w, objects, 0;
      initial, log, mode, begun := objects, [], Mode(false, 0, false, NoExcuse), 0;
    }

    ghost predicate Valid()
      reads this
    {
      && objects == StateAt(initial, log, |log|) && clock == |log|
      && (|log| > 0 ==> Follows(log[|log| - 1].mode, mode))
      && (mode.teardown ==> IsDeleting(x, objects) && begun <= |log| && (begun < |log| ==> log[begun].mode.teardown))
      && HistoryOk(x, initial, log)
    }

    /** From now on nobody interferes and no call fails. */
    ghost predicate Calm()
      reads this
    {
      forall n: nat :: n >= clock ==> w(n) == Turn([], Done)
    }

    ghost function Latest(): Entry
      reads this
      requires log != []
    {
      log[|log| - 1]
    }

    /** How many calls have failed so far. */
    ghost function Failures(): nat
      reads this
    {
      TallyAt(log, |log|).failed
    }

    /** How many calls have failed so far in a way that matters. */
    ghost function Faults(): nat
      reads this
    {
      TallyAt(log, |log|).faults
    }

    /** Nothing but one more call has happened since. */
    twostate predicate Called(op: Op)
      reads this
    {
      && Progressed() && |log| == |old(log)| + 1 && Latest().op == op && Latest().mode == mode
    }

    /** Some more calls have happened since. (`== true` makes the verifier take this as one fact: it is
        shown after every call.) */
    twostate predicate Progressed()
      reads this
    {
      (&& Valid() && mode == old(mode) && (old(Calm()) ==> Calm())
       && old(log) <= log && begun == old(begun)
       && 0 <= Faults() - old(Faults()) <= Failures() - old(Failures())) == true
    }

    ghost method BeginPass(newDatabase: bool, excuse: Excuse)
      requires Valid()
      modifies this`mode
      ensures Valid() && mode == Mode(old(mode).teardown, old(mode).pass + 1, newDatabase, excuse)
    {
      mode := Mode(mode.teardown, mode.pass + 1, newDatabase, excuse);
    }

    ghost method BeginTeardown()
      requires Valid() && IsDeleting(x, objects)
      modifies this`mode, this`begun
      ensures Valid() && mode == Mode(true, old(mode).pass + 1, false, WhileDeleting)
    {
      if !mode.teardown {
        begun := |log|;
      }
      mode := Mode(true, mode.pass + 1, false, WhileDeleting);
    }

    /** The call keeps to the rules; it will do so whatever the environment does first. */
    ghost predicate MayCall(op: Op)
      reads this
    {
      Allowed(x, log, objects, op, mode)
    }

    /** The next entry of the log. */
    ghost function Entered(op: Op, found: Store, o: Outcome): Entry
      reads this
    {
      Entry(found, Carried(op, found, o), op, mode, o, TallyAfter(x, TallyAt(log, |log|), op, found, o, mode))
    }

    /** The history stays one when the call is added to it, whatever the environment did before it. */
    lemma CallExtends(op: Op, turn: Turn, found: Store, after: Store)
      requires Valid() && MayCall(op)
      requires found == PerformAll(x, objects, turn.acts) && after == Carried(op, found, turn.outcome)
      ensures HistoryOk(x, initial, log + [Entered(op, found, turn.outcome)])
      ensures mode.teardown ==> IsDeleting(x, after)
    {
      ActsInterfere(x, objects, turn.acts);
      AllowedIsStable(x, log, objects, found, op, mode);
      HistoryGrows(x, initial, log, Entered(op, found, turn.outcome));
      if mode.teardown {
        DeletionMarkStays(x, log, objects, found, op, mode);
      }
    }

    /** One call: the environment's turn comes first, then the call has its effect unless it is refused. */
    method Call(op: Op) returns (found: Store, o: Outcome)
      requires Valid() && MayCall(op)
      modifies this
      ensures Called(op) && Latest().found == found && Latest().outcome == o == w(old(clock)).outcome
      ensures Succeeded(op, found, o) ==> Failures() == old(Failures())
      ensures Succeeded(op, found, o) || MayFail(x, op, mode.excuse) ==> Faults() == old(Faults())
      ensures objects == Carried(op, found, o)
      ensures old(Calm()) ==> o == Done && found == old(objects)
    {
      var turn := w(clock);
      o := turn.outcome;
      found := PerformAll(x, objects, turn.acts);
      var after := Carried(op, found, o);
      CallExtends(op, turn, found, after);
      Advance(after, Entered(op, found, o));
    }

    /** The cluster is in its next state, and the history says how it got there. */
    method Advance(after: Store, ghost e: Entry)
      requires Valid() && HistoryOk(x, initial, log + [e])
      requires e.after == after && e.mode == mode && e.tally.failed >= Failures()
      requires 0 <= e.tally.faults - Faults() <= e.tally.failed - Failures()
      requires mode.teardown ==> IsDeleting(x, after)
      modifies this
      ensures Progressed() && log == old(log) + [e] && objects == after
    {
      clock := clock + 1;
      objects := after;
      log := log + [e];
    }

    method Get(k: Key) returns (r: Result<Object>)
      requires Valid()
      modifies this
      ensures Called(Read(k)) && Latest().found == objects
      ensures r != Err(Failed) ==> Failures() == old(Failures())
      ensures r != Err(Failed) || MayFail(x, Read(k), mode.excuse) ==> Faults() == old(Faults())
      ensures r.Ok? ==> k in objects && r.value == objects[k]
      ensures r == Err(NotFound) ==> k !in objects
      ensures r != Err(AlreadyExists) && (r != Err(Failed) <==> w(old(clock)).outcome == Done)
      ensures old(Calm()) ==> objects == old(objects) && r == if k in objects then Ok(objects[k]) else Err(NotFound)
    {
      var found, o := Call(Read(k));
      r := if o != Done then Err(Failed) else if k in found then Ok(found[k]) else Err(NotFound);
    }

    /** All keys of one kind in one namespace, in an order nobody knows. */
    method List(kind: Kind, ns: string) returns (r: Result<seq<Key>>)
      requires Valid()
      modifies this
      ensures Called(Op.List(kind, ns))
      ensures r.Ok? ==> Failures() == old(Failures())
      ensures r.Ok? ==> forall k :: k in r.value <==> (k in objects && k.kind == kind && k.ns == ns)
      ensures r.Ok? ==> forall i, j :: 0 <= i < j < |r.value| ==> r.value[i] != r.value[j]
      ensures old(Calm()) ==> objects == old(objects) && r.Ok?
    {
      var found, o := Call(Op.List(kind, ns));
      if o != Done {
        return Err(Failed);
      }
      var keys := KeysOf(found, kind, ns);
      r := Ok(keys);
    }

    method Create(k: Key, v: Object) returns (e: Option<Error>)
      requires Valid() && MayCreate(x, log, objects, k, v, mode)
      modifies this
      ensures Called(Op.Create(k, v))
      ensures Latest().outcome == w(old(clock)).outcome
      ensures Makes(Latest(), k) <==> k !in Latest().found && w(old(clock)).outcome != Refused
      ensures e.None? <==> k !in Latest().found && w(old(clock)).outcome == Done
      ensures e.None? ==> Writes(Latest(), k, v) && objects == Latest().found[k := v] && Failures() == old(Failures())
      ensures old(Calm()) ==> e == CreateError(old(objects), k, Done) && objects == if k in old(objects) then old(objects) else old(objects)[k := v]
    {
      var found, o := Call(Op.Create(k, v));
      e := CreateError(found, k, o);
    }

    /** Also `Patch`: both change an existing object only. */
    method Update(k: Key, v: Object) returns (e: Option<Error>)
      requires Valid() && MayUpdate(x, objects, k, v, mode)
      modifies this
      ensures Called(Op.Update(k, v))
      ensures e.None? ==> k in Latest().found && objects == Latest().found[k := Stored(Latest().found, k, v)]
      ensures e.None? ==> Writes(Latest(), k, v) && Latest().outcome == Done && Failures() == old(Failures())
      ensures old(Calm()) ==> e == TouchError(old(objects), k, Done)
      ensures old(Calm()) ==> objects == if k in old(objects) then old(objects)[k := Stored(old(objects), k, v)] else old(objects)
    {
      var found, o := Call(Op.Update(k, v));
      e := TouchError(found, k, o);
    }

    method Delete(k: Key) returns (e: Option<Error>)
      requires Valid() && IsDeletable(x, k)
      modifies this
      ensures Called(Op.Delete(k))
      ensures e.None? || e == Some(NotFound) ==> k !in objects && Latest().outcome == Done && Failures() == old(Failures())
      ensures e == Some(NotFound) <==> k !in Latest().found && Latest().outcome == Done
      ensures MayFail(x, Op.Delete(k), mode.excuse) ==> Faults() == old(Faults())
      ensures old(Calm()) ==> e == TouchError(old(objects), k, Done) && objects == old(objects) - {k}
    {
      var found, o := Call(Op.Delete(k));
      e := TouchError(found, k, o);
    }

    method DeleteNamespace(ns: string) returns (e: Option<Error>)
      requires Valid() && (ns == x.ns ==> mode.teardown)
      modifies this
      ensures Called(DropNamespace(ns))
      ensures e.None? || e == Some(NotFound) ==> NamespaceKey(ns) !in objects
      ensures e.None? ==> NamespaceKey(ns) in Latest().found && objects == Cascade(Latest().found, ns)
      ensures e.None? ==> Latest().outcome == Done && Failures() == old(Failures())
      ensures old(Calm()) ==> e == TouchError(old(objects), NamespaceKey(ns), Done) && objects == WithoutNamespace(old(objects), ns)
    {
      var found, o := Call(DropNamespace(ns));
      e := TouchError(found, NamespaceKey(ns), o);
    }
  }

  method KeysOf(s: Store, kind: Kind, ns: string) returns (keys: seq<Key>)
    ensures forall k :: k in keys <==> (k in s && k.kind == kind && k.ns == ns)
    ensures forall i, j :: 0 <= i < j < |keys| ==> keys[i] != keys[j]
  {
    var rest := set k | k in s && k.kind == kind && k.ns == ns;
    keys := [];
    while rest != {}
      invariant forall k :: (k in keys || k in rest) <==> (k in s && k.kind == kind && k.ns == ns)
      invariant forall i :: 0 <= i < |keys| ==> keys[i] !in rest
      invariant forall i, j :: 0 <= i < j < |keys| ==> keys[i] != keys[j]
      decreases rest
    {
      var k :| k in rest;
      rest := rest - {k};
      keys := keys + [k];
    }
  }
}
