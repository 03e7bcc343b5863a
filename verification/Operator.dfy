/** Installing and uninstalling the operator of one namespace: a list of manifest items, most of which go
    into the namespace, while one role binding is shared by the operators of all namespaces. */
module Operator {
  import opened Kube
  import opened World
  import opened History
  import opened Subjects

  // ------------------------------------------------- the manifest

  /** One object of the manifest. */
  datatype Item = Item(kind: Kind, name: ObjectName, content: Object)

  predicate IsShared(item: Item) {
    item.kind == ClusterRole || item.kind == ClusterRoleBinding
  }

  predicate IsKnown(item: Item) {
    || item.kind == ServiceAccount || item.kind == ConfigMap || item.kind == Service || item.kind == Deployment
    || IsShared(item)
  }

  function ItemKey(item: Item, ns: string): Key {
    Key(item.kind, if IsShared(item) then "" else ns, item.name)
  }

  /** Only the first subject of a binding in the manifest is a service account. */
  predicate StartsWithItsAccount(o: Object) {
    && o.Binding? && |o.subjects| > 0
    && (forall i :: 0 <= i < |o.subjects| ==> (o.subjects[i].kind == ServiceAccountSubject <==> i == 0))
  }

  /** What the code relies on in its manifest: a binding starts with its one service account, no two items
      are the same object, and none is an object that the instance's own passes handle. */
  ghost predicate IsManifest(items: seq<Item>, x: Target, ns: string) {
    && (forall i :: 0 <= i < |items| ==> IsManifestItem(items[i], x, ns))
    && AreDistinct(ItemKeys(items, ns))
  }

  function ItemKeys(items: seq<Item>, ns: string): (ks: seq<Key>)
    ensures |ks| == |items|
  {
    seq(|items|, i requires 0 <= i < |items| => ItemKey(items[i], ns))
  }

  ghost predicate AreDistinct(ks: seq<Key>) {
    forall i, j :: 0 <= i < j < |ks| ==> ks[i] != ks[j]
  }

  predicate IsManifestItem(item: Item, x: Target, ns: string) {
    && (IsKnown(item) || item.kind == UnknownKind)
    && (item.kind == ClusterRoleBinding ==> StartsWithItsAccount(item.content))
    && item.name != PodEnvironmentConfig && item.name != SidecarsConfig
    && var k := ItemKey(item, ns);
    && k != x.initMap && !IsOurs(x, k) && !IsDerived(x, k)
  }

  lemma ItemIsHarmless(item: Item, x: Target, ns: string, v: Object)
    requires IsManifestItem(item, x, ns) && (item.kind == ClusterRoleBinding ==> GoodBinding(v))
    ensures IsHarmless(x, ItemKey(item, ns), v)
  {
  }

  /** The object as it is installed: the operator's policy rule is added to a cluster role, and the
      service accounts of a binding get the namespace. */
  function Prepared(item: Item, ns: string, rule: string): Object {
    match item.content
    case Rules(rules) => if item.kind == ClusterRole then Rules(rules + [rule]) else item.content
    case Binding(subjects) => if item.kind == ClusterRoleBinding then Binding(InNamespace(subjects, ns)) else item.content
    case _ => item.content
  }

  function InNamespace(s: seq<Subject>, ns: string): seq<Subject> {
    seq(|s|, i requires 0 <= i < |s| => if s[i].kind == ServiceAccountSubject then s[i].(ns := ns) else s[i])
  }

  function SubjectsOf(o: Object): seq<Subject> {
    if o.Binding? then o.subjects else []
  }

  predicate HasAccount(s: seq<Subject>, ns: string) {
    NamedBefore(s, ns, |s|)
  }

  // ------------------------------------------------- bindings

  lemma AppendKeepsAtMostOne(s: seq<Subject>, y: Subject, ns: string)
    requires AtMostOnePerNamespace(s) && !HasAccount(s, ns) && IsFor(y, ns)
    ensures AtMostOnePerNamespace(s + [y])
  {
  }

  lemma PreparedIsGood(item: Item, ns: string, rule: string)
    requires item.kind == ClusterRoleBinding && StartsWithItsAccount(item.content)
    ensures var list := InNamespace(item.content.subjects, ns);
            && Prepared(item, ns, rule) == Binding(list) && AtMostOnePerNamespace(list)
            && |list| > 0 && IsFor(list[0], ns) && HasAccount(list, ns)
            && (forall i :: 0 < i < |list| ==> !IsFor(list[i], ns))
  {
  }

  lemma AppendedIsNamed(list: seq<Subject>, y: Subject, ns: string)
    requires IsFor(y, ns)
    ensures HasAccount(list + [y], ns)
  {
    assert IsFor((list + [y])[|list|], ns);
  }

  lemma AppendIsAllowed(x: Target, s: Store, mode: Mode, key: Key, y: Subject, ns: string)
    requires key.kind == ClusterRoleBinding && key in s && !HasAccount(SubjectsOf(s[key]), ns) && IsFor(y, ns)
    ensures MayUpdate(x, s, key, Binding(SubjectsOf(s[key]) + [y]), mode)
  {
    if AtMostOnePerNamespace(SubjectsOf(s[key])) {
      AppendKeepsAtMostOne(SubjectsOf(s[key]), y, ns);
    }
  }

  /** Whether one of the subjects is a service account of the namespace. */
  method FindAccount(s: seq<Subject>, ns: string) returns (found: bool)
    ensures found <==> HasAccount(s, ns)
  {
    for i := 0 to |s|
      invariant !NamedBefore(s, ns, i)
    {
      if IsFor(s[i], ns) {
        return true;
      }
    }
    found := false;
  }

  method SetNamespaces(s: seq<Subject>, ns: string) returns (r: seq<Subject>)
    ensures r == InNamespace(s, ns)
  {
    r := s;
    for i := 0 to |s|
      invariant |r| == |s|
      invariant forall j :: 0 <= j < i ==> r[j] == InNamespace(s, ns)[j]
      invariant forall j :: i <= j < |s| ==> r[j] == s[j]
    {
      if s[i].kind == ServiceAccountSubject {
        r := r[i := s[i].(ns := ns)];
      }
    }
  }

  // ------------------------------------------------- what a calm installation does

  /** What an item's object is after its installation into the store `s`. */
  function InstalledValue(s: Store, item: Item, ns: string, rule: string): Object {
    var k, v := ItemKey(item, ns), Prepared(item, ns, rule);
    if item.kind != ClusterRoleBinding || k !in s then v
    else if HasAccount(SubjectsOf(s[k]), ns) || SubjectsOf(v) == [] then s[k]
    else Binding(SubjectsOf(s[k]) + [SubjectsOf(v)[0]])
  }

  function WithItem(s: Store, item: Item, ns: string, rule: string): Store {
    if IsKnown(item) then s[ItemKey(item, ns) := InstalledValue(s, item, ns, rule)] else s
  }

  lemma InstalledBinding(s: Store, item: Item, ns: string, rule: string)
    requires item.kind == ClusterRoleBinding && StartsWithItsAccount(item.content)
    ensures var k, subjects := ItemKey(item, ns), InNamespace(item.content.subjects, ns);
            InstalledValue(s, item, ns, rule) ==
              if k !in s then Binding(subjects)
              else if HasAccount(SubjectsOf(s[k]), ns) then s[k] else Binding(SubjectsOf(s[k]) + [subjects[0]])
  {
  }

  function InstalledValues(s: Store, items: seq<Item>, ns: string, rule: string): (vs: seq<Option<Object>>)
    ensures |vs| == |items|
  {
    seq(|items|, i requires 0 <= i < |items| => Some(InstalledValue(s, items[i], ns, rule)))
  }

  function Lookup(s: Store, k: Key): Option<Object> {
    if k in s then Some(s[k]) else None
  }

  function Put(s: Store, k: Key, v: Option<Object>): Store {
    if v.Some? then s[k := v.value] else s - {k}
  }

  /** `t` is `s` with the values from `lo` up to `hi` put under their keys. */
  ghost predicate Written(s: Store, t: Store, ks: seq<Key>, vs: seq<Option<Object>>, lo: nat, hi: nat)
    requires lo <= hi <= |ks| == |vs|
  {
    && (forall i :: lo <= i < hi ==> Lookup(t, ks[i]) == vs[i])
    && (forall k :: k !in ks[lo..hi] ==> Lookup(t, k) == Lookup(s, k))
  }

  lemma NextIsUnwritten(s: Store, t: Store, ks: seq<Key>, vs: seq<Option<Object>>, lo: nat, hi: nat, n: nat)
    requires lo <= hi <= |ks| == |vs| && AreDistinct(ks) && Written(s, t, ks, vs, lo, hi)
    requires n < |ks| && !(lo <= n < hi)
    ensures Lookup(t, ks[n]) == Lookup(s, ks[n])
  {
    assert ks[n] !in ks[lo..hi];
  }

  lemma WriteNext(s: Store, t: Store, ks: seq<Key>, vs: seq<Option<Object>>, lo: nat, n: nat)
    requires lo <= n < |ks| == |vs| && AreDistinct(ks) && Written(s, t, ks, vs, lo, n)
    ensures Written(s, Put(t, ks[n], vs[n]), ks, vs, lo, n + 1)
  {
    assert ks[lo..n + 1] == ks[lo..n] + [ks[n]];
    forall k | k !in ks[lo..n + 1]
      ensures k !in ks[lo..n] && k != ks[n]
    {
    }
  }

  lemma WritePrevious(s: Store, t: Store, ks: seq<Key>, vs: seq<Option<Object>>, n: nat, hi: nat)
    requires n < hi <= |ks| == |vs| && AreDistinct(ks) && Written(s, t, ks, vs, n + 1, hi)
    ensures Written(s, Put(t, ks[n], vs[n]), ks, vs, n, hi)
  {
    assert ks[n..hi] == [ks[n]] + ks[n + 1..hi];
    forall k | k !in ks[n..hi]
      ensures k !in ks[n + 1..hi] && k != ks[n]
    {
    }
  }

  lemma ValueIsOwn(s: Store, t: Store, item: Item, ns: string, rule: string)
    requires Lookup(t, ItemKey(item, ns)) == Lookup(s, ItemKey(item, ns))
    ensures InstalledValue(t, item, ns, rule) == InstalledValue(s, item, ns, rule)
  {
  }

  ghost predicate IsInstalled(s: Store, t: Store, items: seq<Item>, ns: string, rule: string) {
    Written(s, t, ItemKeys(items, ns), InstalledValues(s, items, ns, rule), 0, |items|)
  }

  /** The same subjects, but that the service accounts belong to the namespace. */
  ghost predicate AreMovedTo(list: seq<Subject>, list': seq<Subject>, ns: string) {
    && |list'| == |list|
    && forall i :: 0 <= i < |list| ==>
         && list'[i].kind == list[i].kind && list'[i].name == list[i].name
         && list'[i].ns == if list[i].kind == ServiceAccountSubject then ns else list[i].ns
  }

  /** What an installation from `s` to `t` makes of an item: a cluster role has the item's rules, followed by
      the operator's policy rule; an object in the namespace is the item's own; a new binding has the item's
      subjects, moved to the namespace; and an old one its old subjects, followed by the item's account for
      the namespace unless one was there. */
  ghost predicate HasContent(s: Store, t: Store, item: Item, ns: string, rule: string) {
    var k := ItemKey(item, ns);
    k in t &&
    if item.kind == ClusterRole && item.content.Rules? then t[k] == Rules(item.content.rules + [rule])
    else if item.kind != ClusterRoleBinding || !item.content.Binding? then t[k] == item.content
    else if k !in s then t[k].Binding? && AreMovedTo(item.content.subjects, t[k].subjects, ns)
    else if HasAccount(SubjectsOf(s[k]), ns) || |item.content.subjects| == 0 then t[k] == s[k]
    else t[k] == Binding(SubjectsOf(s[k]) + [item.content.subjects[0].(ns := ns)])
  }

  ghost predicate HaveContents(s: Store, t: Store, items: seq<Item>, ns: string, rule: string) {
    forall i :: 0 <= i < |items| ==> HasContent(s, t, items[i], ns, rule)
  }

  lemma InstalledHasContent(s: Store, t: Store, item: Item, ns: string, rule: string)
    requires item.kind == ClusterRoleBinding ==> StartsWithItsAccount(item.content)
    requires Lookup(t, ItemKey(item, ns)) == Some(InstalledValue(s, item, ns, rule))
    ensures HasContent(s, t, item, ns, rule)
  {
  }

  lemma InstalledHaveContents(s: Store, t: Store, items: seq<Item>, x: Target, ns: string, rule: string)
    requires IsManifest(items, x, ns) && IsInstalled(s, t, items, ns, rule)
    ensures HaveContents(s, t, items, ns, rule)
  {
    forall i | 0 <= i < |items|
      ensures HasContent(s, t, items[i], ns, rule)
    {
      assert IsManifestItem(items[i], x, ns);
      assert Lookup(t, ItemKeys(items, ns)[i]) == InstalledValues(s, items, ns, rule)[i];
      InstalledHasContent(s, t, items[i], ns, rule);
    }
  }

  predicate AllKnown(items: seq<Item>) {
    forall i :: 0 <= i < |items| ==> IsKnown(items[i])
  }

  /** The first `n` items could be installed, and have been. */
  ghost predicate Installing(s: Store, t: Store, items: seq<Item>, ns: string, rule: string, n: nat) {
    && n <= |items| && AllKnown(items[..n])
    && Written(s, t, ItemKeys(items, ns), InstalledValues(s, items, ns, rule), 0, n)
  }

  lemma InstallStep(s: Store, t: Store, items: seq<Item>, ns: string, rule: string, n: nat, t': Store)
    requires n < |items| && AreDistinct(ItemKeys(items, ns)) && IsKnown(items[n])
    requires Installing(s, t, items, ns, rule, n)
    requires t' == t[ItemKey(items[n], ns) := InstalledValue(t, items[n], ns, rule)]
    ensures Installing(s, t', items, ns, rule, n + 1)
  {
    var ks, vs := ItemKeys(items, ns), InstalledValues(s, items, ns, rule);
    NextIsUnwritten(s, t, ks, vs, 0, n, n);
    ValueIsOwn(s, t, items[n], ns, rule);
    WriteNext(s, t, ks, vs, 0, n);
    assert Installing(s, t', items, ns, rule, n + 1);
  }

  lemma InstallEnds(s: Store, t: Store, items: seq<Item>, ns: string, rule: string)
    requires Installing(s, t, items, ns, rule, |items|)
    ensures AllKnown(items) && IsInstalled(s, t, items, ns, rule)
  {
    assert items[..|items|] == items;
  }

  // ------------------------------------------------- what any installation has done

  /** The binding names an account of the namespace. */
  predicate HasSubject(s: Store, k: Key, ns: string) {
    k in s && HasAccount(SubjectsOf(s[k]), ns)
  }

  /** A call that has written the item's object, or after which its binding names the namespace. */
  predicate Places(e: Entry, item: Item, ns: string, rule: string) {
    if item.kind == ClusterRoleBinding then HasSubject(e.after, ItemKey(item, ns), ns)
    else Writes(e, ItemKey(item, ns), Prepared(item, ns, rule))
  }

  ghost predicate IsPlaced(log: seq<Entry>, n0: nat, item: Item, ns: string, rule: string) {
    IsKnown(item) && exists j :: n0 <= j < |log| && Places(log[j], item, ns, rule)
  }

  /** From entry `n0` on there is such a call for each of the first `n` items. */
  ghost predicate ArePlaced(log: seq<Entry>, n0: nat, items: seq<Item>, ns: string, rule: string, n: nat) {
    n <= |items| && forall l :: 0 <= l < n ==> IsPlaced(log, n0, items[l], ns, rule)
  }

  lemma StillPlaced(log: seq<Entry>, log': seq<Entry>, n0: nat, item: Item, ns: string, rule: string)
    requires log <= log' && IsPlaced(log, n0, item, ns, rule)
    ensures IsPlaced(log', n0, item, ns, rule)
  {
    var j :| n0 <= j < |log| && Places(log[j], item, ns, rule);
    assert log'[j] == log[j];
  }

  lemma OneMoreIsPlaced(log: seq<Entry>, log': seq<Entry>, n0: nat, items: seq<Item>, ns: string, rule: string, n: nat)
    requires log <= log' && n0 <= |log| && n < |items| && ArePlaced(log, n0, items, ns, rule, n)
    requires IsPlaced(log', |log|, items[n], ns, rule)
    ensures ArePlaced(log', n0, items, ns, rule, n + 1)
  {
    forall l | 0 <= l < n
      ensures IsPlaced(log', n0, items[l], ns, rule)
    {
      StillPlaced(log, log', n0, items[l], ns, rule);
    }
    assert IsPlaced(log', n0, items[n], ns, rule);
  }

  // ------------------------------------------------- what any uninstallation has done

  /** A call that has deleted the item's object, or after which its binding does not name the namespace;
      nothing is to be done for a cluster role. */
  predicate Removes(e: Entry, item: Item, ns: string) {
    if item.kind == ClusterRoleBinding then !HasSubject(e.after, ItemKey(item, ns), ns)
    else e.op == Delete(ItemKey(item, ns)) && ItemKey(item, ns) in e.found && e.outcome == Done
  }

  /** A call that was to delete the item's object and was told that there is none. */
  predicate Misses(e: Entry, item: Item, ns: string) {
    !IsShared(item) && e.op == Delete(ItemKey(item, ns)) && ItemKey(item, ns) !in e.found && e.outcome == Done
  }

  ghost predicate IsRemoved(log: seq<Entry>, n0: nat, item: Item, ns: string) {
    item.kind != ClusterRole ==> exists j :: n0 <= j < |log| && Removes(log[j], item, ns)
  }

  /** From entry `n0` on there is such a call for each of the items from the n-th on. */
  ghost predicate AreRemoved(log: seq<Entry>, n0: nat, items: seq<Item>, ns: string, n: nat) {
    n <= |items| && forall l :: n <= l < |items| ==> IsRemoved(log, n0, items[l], ns)
  }

  lemma StillRemoved(log: seq<Entry>, log': seq<Entry>, n0: nat, item: Item, ns: string)
    requires log <= log' && IsRemoved(log, n0, item, ns)
    ensures IsRemoved(log', n0, item, ns)
  {
    if item.kind != ClusterRole {
      var j :| n0 <= j < |log| && Removes(log[j], item, ns);
      assert log'[j] == log[j];
    }
  }

  lemma AllStillRemoved(log: seq<Entry>, log': seq<Entry>, n0: nat, items: seq<Item>, ns: string)
    requires log <= log' && AreRemoved(log, n0, items, ns, 0)
    ensures AreRemoved(log', n0, items, ns, 0)
  {
    forall l | 0 <= l < |items|
      ensures IsRemoved(log', n0, items[l], ns)
    {
      StillRemoved(log, log', n0, items[l], ns);
    }
  }

  lemma OneMoreIsRemoved(log: seq<Entry>, log': seq<Entry>, n0: nat, items: seq<Item>, ns: string, n: nat, m: nat)
    requires log <= log' && n0 <= |log| && m + 1 == n <= |items| && AreRemoved(log, n0, items, ns, n)
    requires IsRemoved(log', |log|, items[m], ns)
    ensures AreRemoved(log', n0, items, ns, m)
  {
    forall l | n <= l < |items|
      ensures IsRemoved(log', n0, items[l], ns)
    {
      StillRemoved(log, log', n0, items[l], ns);
    }
    assert IsRemoved(log', n0, items[m], ns);
  }

  /** The last call of a successful uninstallation: it found an object of the manifest missing, or it
      deleted the namespace. */
  ghost predicate EndsUninstallation(e: Entry, items: seq<Item>, ns: string) {
    MissesOne(e, items, ns) || Drops(e, ns)
  }

  ghost predicate MissesOne(e: Entry, items: seq<Item>, ns: string) {
    exists i :: 0 <= i < |items| && Misses(e, items[i], ns)
  }

  predicate Drops(e: Entry, ns: string) {
    e.op == DropNamespace(ns) && NamespaceKey(ns) in e.found && e.outcome == Done
  }

  // ------------------------------------------------- what a calm uninstallation does

  /** A missing object ends the uninstallation: with success, or with an error if it is the binding. */
  predicate Stops(s: Store, item: Item, ns: string) {
    item.kind != ClusterRole && ItemKey(item, ns) !in s
  }

  /** One more than the index of the last item that is missing, which is the first that the backward
      loop comes to; 0 if none is. */
  function StopAt(s: Store, items: seq<Item>, ns: string, n: nat): (m: nat)
    requires n <= |items|
    ensures m <= n
    ensures forall i :: m <= i < n ==> !Stops(s, items[i], ns)
    ensures m > 0 ==> Stops(s, items[m - 1], ns)
  {
    if n == 0 then 0 else if Stops(s, items[n - 1], ns) then n else StopAt(s, items, ns, n - 1)
  }

  /** What the uninstallation leaves of one item. */
  function Remainder(s: Store, item: Item, ns: string): Option<Object> {
    var k := ItemKey(item, ns);
    if item.kind == ClusterRole || k !in s then Lookup(s, k)
    else if item.kind != ClusterRoleBinding then None
    else Some(if s[k].Binding? then Binding(Without(s[k].subjects, ns)) else s[k])
  }

  function Remainders(s: Store, items: seq<Item>, ns: string): (vs: seq<Option<Object>>)
    ensures |vs| == |items|
  {
    seq(|items|, i requires 0 <= i < |items| => Remainder(s, items[i], ns))
  }

  predicate Succeeds(s: Store, items: seq<Item>, ns: string) {
    var m := StopAt(s, items, ns, |items|);
    if m > 0 then items[m - 1].kind != ClusterRoleBinding else NamespaceKey(ns) in s
  }

  /** The items behind the stop are handled; only without a stop the namespace goes too. */
  ghost predicate IsSwept(s: Store, t: Store, items: seq<Item>, ns: string, n: nat)
    requires n <= |items|
  {
    Written(s, t, ItemKeys(items, ns), Remainders(s, items, ns), n, |items|)
  }

  ghost predicate IsUninstalled(s: Store, t: Store, items: seq<Item>, ns: string) {
    var m := StopAt(s, items, ns, |items|);
    exists mid :: IsSwept(s, mid, items, ns, m)
      && t == if m > 0 then mid else WithoutNamespace(mid - {PodConfigKey(ns)}, ns)
  }

  datatype SweepEnd = Through | Early | Failure | Panic

  datatype SweepResult = SweepResult(store: Store, end: SweepEnd)

  /** The loop has handled the items from `n` on and found none of them missing. */
  ghost predicate Sweeping(s: Store, t: Store, items: seq<Item>, ns: string, n: nat) {
    n <= |items| && IsSwept(s, t, items, ns, n) && StopAt(s, items, ns, |items|) == StopAt(s, items, ns, n)
  }

  /** The loop has ended as it must. */
  ghost predicate Swept(s: Store, t: Store, items: seq<Item>, ns: string, end: SweepEnd) {
    var m := StopAt(s, items, ns, |items|);
    && IsSwept(s, t, items, ns, m)
    && end == if m == 0 then Through else EndAt(s, items[m - 1], ns)
  }

  function EndAt(s: Store, item: Item, ns: string): SweepEnd {
    if !Stops(s, item, ns) then Through else if item.kind == ClusterRoleBinding then Failure else Early
  }

  lemma NextIsAsItWas(s: Store, t: Store, items: seq<Item>, ns: string, n: nat)
    requires n < |items| && AreDistinct(ItemKeys(items, ns)) && IsSwept(s, t, items, ns, n + 1)
    ensures Lookup(t, ItemKey(items[n], ns)) == Lookup(s, ItemKey(items[n], ns))
  {
    NextIsUnwritten(s, t, ItemKeys(items, ns), Remainders(s, items, ns), n + 1, |items|, n);
  }

  lemma SweepStops(s: Store, t: Store, items: seq<Item>, ns: string, n: nat)
    requires n < |items| && AreDistinct(ItemKeys(items, ns)) && Sweeping(s, t, items, ns, n + 1) && Stops(t, items[n], ns)
    ensures Swept(s, t, items, ns, EndAt(t, items[n], ns))
  {
    NextIsAsItWas(s, t, items, ns, n);
  }

  lemma SweepStep(s: Store, t: Store, items: seq<Item>, ns: string, n: nat, t': Store)
    requires n < |items| && AreDistinct(ItemKeys(items, ns)) && Sweeping(s, t, items, ns, n + 1) && !Stops(t, items[n], ns)
    requires t' == Put(t, ItemKey(items[n], ns), Remainder(t, items[n], ns))
    ensures Sweeping(s, t', items, ns, n)
  {
    NextIsAsItWas(s, t, items, ns, n);
    WritePrevious(s, t, ItemKeys(items, ns), Remainders(s, items, ns), n, |items|);
  }

  /** The backward loop on values, from the items before `n` on. */
  function Sweep(items: seq<Item>, ns: string, n: nat, t: Store): SweepResult
    requires n <= |items|
  {
    if n == 0 then SweepResult(t, Through)
    else if Stops(t, items[n - 1], ns) then SweepResult(t, EndAt(t, items[n - 1], ns))
    else Sweep(items, ns, n - 1, Put(t, ItemKey(items[n - 1], ns), Remainder(t, items[n - 1], ns)))
  }

  /** From here the loop ends in `goal`. */
  ghost predicate OnCourse(items: seq<Item>, ns: string, n: nat, t: Store, goal: SweepResult) {
    n <= |items| && Sweep(items, ns, n, t) == goal
  }

  /** One round of the loop, and where it ends if it does. */
  lemma SweepsOn(items: seq<Item>, ns: string, n: nat, m: nat, t: Store, goal: SweepResult)
    requires m + 1 == n <= |items| && OnCourse(items, ns, n, t, goal)
    ensures var t' := Put(t, ItemKey(items[m], ns), Remainder(t, items[m], ns));
            var end := EndAt(t, items[m], ns);
            if end.Through? then OnCourse(items, ns, m, t', goal) else goal == SweepResult(t', end)
  {
  }

  lemma SweepEnds(s: Store, t: Store, items: seq<Item>, ns: string, n: nat, r: SweepResult)
    requires AreDistinct(ItemKeys(items, ns)) && Sweeping(s, t, items, ns, n) && OnCourse(items, ns, n, t, r)
    requires n == 0 || Stops(t, items[n - 1], ns)
    ensures Swept(s, r.store, items, ns, r.end)
  {
    if n > 0 {
      SweepStops(s, t, items, ns, n - 1);
    }
  }

  lemma SweepGoesOn(s: Store, t: Store, items: seq<Item>, ns: string, n: nat, r: SweepResult) returns (t': Store)
    requires AreDistinct(ItemKeys(items, ns)) && Sweeping(s, t, items, ns, n) && OnCourse(items, ns, n, t, r)
    requires n > 0 && !Stops(t, items[n - 1], ns)
    ensures Sweeping(s, t', items, ns, n - 1) && OnCourse(items, ns, n - 1, t', r)
  {
    t' := Put(t, ItemKey(items[n - 1], ns), Remainder(t, items[n - 1], ns));
    SweepsOn(items, ns, n, n - 1, t, r);
    SweepStep(s, t, items, ns, n - 1, t');
  }

  /** It ends as `StopAt` says, with the items behind the stop handled. */
  lemma {:induction false} SweepFrom(s: Store, t: Store, items: seq<Item>, ns: string, n: nat, r: SweepResult)
    requires AreDistinct(ItemKeys(items, ns)) && Sweeping(s, t, items, ns, n) && OnCourse(items, ns, n, t, r)
    ensures Swept(s, r.store, items, ns, r.end)
    decreases n
  {
    if n == 0 || Stops(t, items[n - 1], ns) {
      SweepEnds(s, t, items, ns, n, r);
    } else {
      var t' := SweepGoesOn(s, t, items, ns, n, r);
      SweepFrom(s, t', items, ns, n - 1, r);
    }
  }

  lemma SweepIsExact(s: Store, items: seq<Item>, ns: string)
    requires AreDistinct(ItemKeys(items, ns))
    ensures var r := Sweep(items, ns, |items|, s); Swept(s, r.store, items, ns, r.end)
  {
    SweepFrom(s, s, items, ns, |items|, Sweep(items, ns, |items|, s));
  }

  lemma NamespaceIsNoItem(items: seq<Item>, x: Target, ns: string)
    requires IsManifest(items, x, ns)
    ensures NamespaceKey(ns) !in ItemKeys(items, ns)
  {
    forall i | 0 <= i < |items|
      ensures ItemKeys(items, ns)[i] != NamespaceKey(ns)
    {
      assert IsManifestItem(items[i], x, ns);
    }
  }

  /** Sweeping leaves the namespace alone. */
  lemma SweptKeepsNamespace(s: Store, t: Store, items: seq<Item>, x: Target, ns: string, end: SweepEnd)
    requires IsManifest(items, x, ns) && Swept(s, t, items, ns, end)
    ensures NamespaceKey(ns) in t <==> NamespaceKey(ns) in s
  {
    NamespaceIsNoItem(items, x, ns);
    assert Lookup(t, NamespaceKey(ns)) == Lookup(s, NamespaceKey(ns));
  }

  /** The uninstallation's last steps: none after a stop, else the namespace goes. */
  lemma SweptThenRest(s: Store, mid: Store, t: Store, items: seq<Item>, ns: string, end: SweepEnd)
    requires Swept(s, mid, items, ns, end) && (NamespaceKey(ns) in mid <==> NamespaceKey(ns) in s)
    requires t == if end != Through then mid else WithoutNamespace(mid - {PodConfigKey(ns)}, ns)
    ensures IsUninstalled(s, t, items, ns)
    ensures Succeeds(s, items, ns) <==> end == Early || (end == Through && NamespaceKey(ns) in mid)
  {
    assert Swept(s, mid, items, ns, end);
    assert IsSwept(s, mid, items, ns, StopAt(s, items, ns, |items|));
  }

  predicate HasOperatorPod(s: Store, ns: string) {
    exists k :: k in s && k.kind == OperatorPod && k.ns == ns
  }

  predicate NoStatefulSets(s: Store, ns: string) {
    forall k :: k in s ==> !(k.kind == StatefulSet && k.ns == ns)
  }

  // ------------------------------------------------- the manager

  function PodConfigKey(ns: string): Key { Key(ConfigMap, ns, PodEnvironmentConfig) }
  function PodSecretKey(ns: string): Key { Key(Secret, ns, PodEnvironmentSecret) }
  function SidecarsKey(ns: string): Key { Key(ConfigMap, ns, SidecarsConfig) }

  lemma NamespaceIsNoMap(s: Store, ns: string)
    ensures NamespaceKey(ns) in s - {PodConfigKey(ns)} <==> NamespaceKey(ns) in s
  {
  }

  lemma EnvironmentIsHarmless(x: Target, ns: string, v: Object)
    ensures IsHarmless(x, NamespaceKey(ns), v) && IsHarmless(x, PodConfigKey(ns), v)
    ensures IsHarmless(x, PodSecretKey(ns), v) && IsHarmless(x, SidecarsKey(ns), v)
  {
  }

  function Ensured(s: Store, k: Key, v: Object): Store {
    if k in s then s else s[k := v]
  }

  function EntriesOf(o: Object): map<DataKey, string> {
    if o.Data? then o.entries else map[]
  }

  /** An entry of the global map as it goes into the namespace's: decoded, a missing one like an empty
      one, and one that can not be decoded not at all. */
  function DecodedEntry(o: Object, k: DataKey, decode: string -> Option<string>): map<DataKey, string> {
    var text := decode(if k in EntriesOf(o) then EntriesOf(o)[k] else "");
    if text.Some? then map[k := text.value] else map[]
  }

  /** The map has the two entries of the given one, decoded, and no other; an entry that can not be decoded is
      left out. */
  ghost predicate AreDecoded(given: map<DataKey, string>, v: Object, decode: string -> Option<string>) {
    && v.Data?
    && (forall k :: k in v.entries ==> k == FluentBitConf || k == QueriesYaml)
    && (forall k :: k == FluentBitConf || k == QueriesYaml ==>
          var text := decode(if k in given then given[k] else "");
          if text.Some? then k in v.entries && v.entries[k] == text.value else k !in v.entries)
  }

  /** The sidecars map that is made from the global one. */
  function Sidecars(o: Object, decode: string -> Option<string>): Object {
    Data(DecodedEntry(o, FluentBitConf, decode) + DecodedEntry(o, QueriesYaml, decode))
  }

  /** The namespace with the maps for the environment of its pods, empty if they are new. */
  function Environment(s: Store, ns: string): Store {
    Ensured(Ensured(s[NamespaceKey(ns) := Plain], PodConfigKey(ns), Data(map[])), PodSecretKey(ns), Data(map[]))
  }

  /** The namespace with the three objects that precede the manifest's. */
  function Prelude(s: Store, ns: string, global: Key, decode: string -> Option<string>): Store {
    var s' := Environment(s, ns);
    if global in s' then s'[SidecarsKey(ns) := Sidecars(s'[global], decode)] else s'
  }

  class OperatorManager {
    const cluster: Cluster
    const items: seq<Item>
    const rule: string
    const global: Key
    /** The decoding of base64 text. */
    const decode: string -> Option<string>

    constructor (cluster: Cluster, items: seq<Item>, rule: string, global: Key, decode: string -> Option<string>)
      ensures this.cluster == cluster && this.items == items && this.rule == rule && this.global == global && this.decode == decode
    {
      this.cluster, this.items, this.rule, this.global, this.decode := cluster, items, rule, global, decode;
    }

    ghost predicate Valid(ns: string)
      reads cluster
    {
      cluster.Valid() && IsManifest(items, cluster.x, ns)
    }

    /** Looks the object up, then creates or updates it. With `anyError`, any failure to read is taken
        for absence. */
    method CreateOrUpdate(k: Key, v: Object, anyError: bool) returns (e: Option<Error>)
      requires cluster.Valid() && k.kind != PostgresCR && IsHarmless(cluster.x, k, v) && (anyError ==> IsOptional(k))
      modifies cluster
      ensures cluster.Progressed()
      ensures e.None? ==> k in cluster.objects && cluster.Faults() == old(cluster.Faults())
      ensures e.None? ==> |cluster.log| > |old(cluster.log)| && Writes(cluster.Latest(), k, v)
      ensures old(cluster.Calm()) ==> e.None? && cluster.objects == old(cluster.objects)[k := v]
    {
      var got := cluster.Get(k);
      if got.Ok? {
        e := cluster.Update(k, v);
      } else if got.error == NotFound || anyError {
        e := cluster.Create(k, v);
      } else {
        e := Some(got.error);
      }
    }

    method CreateOrUpdateNamespace(ns: string) returns (e: Option<Error>)
      requires cluster.Valid()
      modifies cluster
      ensures cluster.Progressed()
      ensures e.None? ==> NamespaceKey(ns) in cluster.objects && cluster.Faults() == old(cluster.Faults())
      ensures old(cluster.Calm()) ==> e.None? && cluster.objects == old(cluster.objects)[NamespaceKey(ns) := Plain]
    {
      EnvironmentIsHarmless(cluster.x, ns, Plain);
      e := CreateOrUpdate(NamespaceKey(ns), Plain, false);
    }

    /** Any failure to read is taken for absence. */
    method CreateUnlessFound(k: Key) returns (e: Option<Error>)
      requires cluster.Valid() && IsHarmless(cluster.x, k, Data(map[])) && IsOptional(k)
      modifies cluster
      ensures cluster.Progressed()
      ensures e.None? ==> k in cluster.objects && cluster.Faults() == old(cluster.Faults())
      ensures old(cluster.Calm()) ==> e.None? && cluster.objects == Ensured(old(cluster.objects), k, Data(map[]))
    {
      var got := cluster.Get(k);
      if got.Ok? {
        return None;
      }
      e := cluster.Create(k, Data(map[]));
    }

    method CreatePodEnvironmentConfigMap(ns: string) returns (e: Option<Error>)
      requires cluster.Valid()
      modifies cluster
      ensures cluster.Progressed()
      ensures e.None? ==> PodConfigKey(ns) in cluster.objects && cluster.Faults() == old(cluster.Faults())
      ensures old(cluster.Calm()) ==> e.None? && cluster.objects == Ensured(old(cluster.objects), PodConfigKey(ns), Data(map[]))
    {
      EnvironmentIsHarmless(cluster.x, ns, Data(map[]));
      e := CreateUnlessFound(PodConfigKey(ns));
    }

    method CreateOrGetPodEnvironmentSecret(ns: string) returns (e: Option<Error>)
      requires cluster.Valid()
      modifies cluster
      ensures cluster.Progressed()
      ensures e.None? ==> PodSecretKey(ns) in cluster.objects && cluster.Faults() == old(cluster.Faults())
      ensures old(cluster.Calm()) ==> e.None? && cluster.objects == Ensured(old(cluster.objects), PodSecretKey(ns), Data(map[]))
    {
      EnvironmentIsHarmless(cluster.x, ns, Data(map[]));
      e := CreateUnlessFound(PodSecretKey(ns));
    }

    method DecodeEntries(source: Object) returns (v: Object)
      ensures v == Sidecars(source, decode) && AreDecoded(EntriesOf(source), v, decode)
    {
      var given := EntriesOf(source);
      var entries: map<DataKey, string> := map[];
      var text := decode(if FluentBitConf in given then given[FluentBitConf] else "");
      if text.Some? {
        entries := entries[FluentBitConf := text.value];
      }
      text := decode(if QueriesYaml in given then given[QueriesYaml] else "");
      if text.Some? {
        entries := entries[QueriesYaml := text.value];
      }
      v := Data(entries);
    }

    /** The namespace's map is made from the global one, which is a must. */
    method CreateOrUpdateSidecarsConfig(ns: string) returns (e: Option<Error>)
      requires cluster.Valid()
      modifies cluster
      ensures cluster.Progressed()
      ensures e.None? ==> SidecarsKey(ns) in cluster.objects && cluster.Faults() == old(cluster.Faults())
      ensures old(cluster.Calm()) ==>
        && (e.None? <==> global in old(cluster.objects))
        && (e.None? ==> AreDecoded(EntriesOf(old(cluster.objects)[global]), cluster.objects[SidecarsKey(ns)], decode))
        && cluster.objects == if e.None? then old(cluster.objects)[SidecarsKey(ns) := Sidecars(old(cluster.objects)[global], decode)] else old(cluster.objects)
    {
      var source := cluster.Get(global);
      if source.Ok? {
        var v := DecodeEntries(source.value);
        EnvironmentIsHarmless(cluster.x, ns, v);
        e := CreateOrUpdate(SidecarsKey(ns), v, true);
      } else {
        e := Some(source.error);
      }
    }

    /** One item: a binding gets its subject once per namespace, other known objects are created or
        updated, and anything else is an error. */
    method CreateNewClientObject(item: Item, ns: string) returns (e: Option<Error>)
      requires cluster.Valid() && IsManifestItem(item, cluster.x, ns)
      modifies cluster
      ensures cluster.Progressed()
      ensures e.None? ==> cluster.Faults() == old(cluster.Faults()) && IsPlaced(cluster.log, |old(cluster.log)|, item, ns, rule)
      ensures old(cluster.Calm()) ==>
        && (e.None? <==> IsKnown(item))
        && cluster.objects == WithItem(old(cluster.objects), item, ns, rule)
    {
      if item.kind == ClusterRoleBinding {
        e := EnsureSubject(item, ns);
        assert e.None? ==> Places(cluster.Latest(), item, ns, rule);
        return;
      }
      if !IsKnown(item) {
        return Some(Failed);
      }
      ItemIsHarmless(item, cluster.x, ns, Prepared(item, ns, rule));
      e := CreateOrUpdate(ItemKey(item, ns), Prepared(item, ns, rule), false);
      assert e.None? ==> Places(cluster.Latest(), item, ns, rule);
    }

    method EnsureSubject(item: Item, ns: string) returns (e: Option<Error>)
      requires cluster.Valid() && IsManifestItem(item, cluster.x, ns) && item.kind == ClusterRoleBinding
      modifies cluster
      ensures cluster.Progressed()
      ensures e.None? ==> cluster.Faults() == old(cluster.Faults())
      ensures e.None? ==> |cluster.log| > |old(cluster.log)| && HasSubject(cluster.objects, ItemKey(item, ns), ns)
      ensures old(cluster.Calm()) ==>
        e.None? && cluster.objects == old(cluster.objects)[ItemKey(item, ns) := InstalledValue(old(cluster.objects), item, ns, rule)]
    {
      var key := ItemKey(item, ns);
      var subjects := SetNamespaces(item.content.subjects, ns);
      PreparedIsGood(item, ns, rule);
      InstalledBinding(cluster.objects, item, ns, rule);
      var got := cluster.Get(key);
      if got.Ok? {
        e := AppendSubject(key, SubjectsOf(got.value), subjects[0], ns);
      } else if got.error == NotFound {
        e := CreateBinding(item, subjects, ns);
      } else {
        e := Some(got.error);
      }
    }

    method CreateBinding(item: Item, list: seq<Subject>, ns: string) returns (e: Option<Error>)
      requires cluster.Valid() && IsManifestItem(item, cluster.x, ns) && AtMostOnePerNamespace(list) && HasAccount(list, ns)
      modifies cluster
      ensures cluster.Progressed()
      ensures e.None? ==> cluster.Faults() == old(cluster.Faults()) && HasSubject(cluster.objects, ItemKey(item, ns), ns)
      ensures old(cluster.Calm()) && ItemKey(item, ns) !in old(cluster.objects) ==>
        e.None? && cluster.objects == old(cluster.objects)[ItemKey(item, ns) := Binding(list)]
    {
      ItemIsHarmless(item, cluster.x, ns, Binding(list));
      e := cluster.Create(ItemKey(item, ns), Binding(list));
    }

    /** The subject goes to the end, once per namespace. */
    method AppendSubject(key: Key, list: seq<Subject>, y: Subject, ns: string) returns (e: Option<Error>)
      requires cluster.Valid() && key.kind == ClusterRoleBinding && IsFor(y, ns)
      requires key in cluster.objects && SubjectsOf(cluster.objects[key]) == list
      modifies cluster
      ensures cluster.Progressed()
      ensures e.None? ==> cluster.Faults() == old(cluster.Faults()) && HasSubject(cluster.objects, key, ns)
      ensures old(cluster.Calm()) ==>
        && e.None?
        && cluster.objects == old(cluster.objects)[key := if HasAccount(list, ns) then old(cluster.objects[key]) else Binding(list + [y])]
    {
      var named := FindAccount(list, ns);
      e := None;
      if !named {
        AppendIsAllowed(cluster.x, cluster.objects, cluster.mode, key, y, ns);
        AppendedIsNamed(list, y, ns);
        e := PatchBinding(key, list + [y], ns);
      }
    }

    method PatchBinding(key: Key, list: seq<Subject>, ns: string) returns (e: Option<Error>)
      requires cluster.Valid() && key.kind == ClusterRoleBinding && HasAccount(list, ns)
      requires MayUpdate(cluster.x, cluster.objects, key, Binding(list), cluster.mode)
      modifies cluster
      ensures cluster.Progressed()
      ensures e.None? ==> cluster.Faults() == old(cluster.Faults()) && HasSubject(cluster.objects, key, ns)
      ensures old(cluster.Calm()) && key in old(cluster.objects) ==>
        e.None? && cluster.objects == old(cluster.objects)[key := Binding(list)]
    {
      e := cluster.Update(key, Binding(list));
    }

    method InstallOrUpdateOperator(ns: string) returns (e: Option<Error>)
      requires Valid(ns)
      modifies cluster
      ensures cluster.Progressed()
      ensures e.None? ==> cluster.Faults() == old(cluster.Faults())
      ensures e.None? ==> ArePlaced(cluster.log, |old(cluster.log)|, items, ns, rule, |items|)
      ensures old(cluster.Calm()) ==>
        && var s := Prelude(old(cluster.objects), ns, global, decode);
        && (e.None? <==> global in s && AllKnown(items))
        && (e.None? ==> IsInstalled(s, cluster.objects, items, ns, rule) && HaveContents(s, cluster.objects, items, ns, rule))
    {
      e := Prepare(ns);
      if e.None? {
        ghost var s := cluster.objects;
        e := InstallItems(ns);
        if old(cluster.Calm()) && e.None? {
          InstalledHaveContents(s, cluster.objects, items, cluster.x, ns, rule);
        }
      }
    }

    method Prepare(ns: string) returns (e: Option<Error>)
      requires cluster.Valid()
      modifies cluster
      ensures cluster.Progressed()
      ensures e.None? ==> cluster.Faults() == old(cluster.Faults())
      ensures old(cluster.Calm()) ==>
        && cluster.objects == Prelude(old(cluster.objects), ns, global, decode)
        && (e.None? <==> global in cluster.objects)
    {
      e := PrepareEnvironment(ns);
      if e.None? {
        e := CreateOrUpdateSidecarsConfig(ns);
      }
    }

    method PrepareEnvironment(ns: string) returns (e: Option<Error>)
      requires cluster.Valid()
      modifies cluster
      ensures cluster.Progressed()
      ensures e.None? ==> cluster.Faults() == old(cluster.Faults())
      ensures old(cluster.Calm()) ==>
        e.None? && cluster.objects == Environment(old(cluster.objects), ns)
    {
      e := CreateOrUpdateNamespace(ns);
      assert cluster.Progressed();
      if e.None? {
        e := CreatePodEnvironmentConfigMap(ns);
      }
      assert cluster.Progressed();
      if e.None? {
        e := CreateOrGetPodEnvironmentSecret(ns);
      }
    }

    method PlaceItem(n: nat, ns: string, ghost n0: nat) returns (e: Option<Error>)
      requires cluster.Valid() && n < |items| && IsManifestItem(items[n], cluster.x, ns)
      requires n0 <= |cluster.log| && ArePlaced(cluster.log, n0, items, ns, rule, n)
      modifies cluster
      ensures cluster.Progressed()
      ensures e.None? ==> cluster.Faults() == old(cluster.Faults()) && ArePlaced(cluster.log, n0, items, ns, rule, n + 1)
      ensures old(cluster.Calm()) ==>
        && (e.None? <==> IsKnown(items[n]))
        && cluster.objects == WithItem(old(cluster.objects), items[n], ns, rule)
    {
      e := CreateNewClientObject(items[n], ns);
      if e.None? {
        OneMoreIsPlaced(old(cluster.log), cluster.log, n0, items, ns, rule, n);
      }
    }

    method InstallItem(n: nat, ns: string, ghost s: Store, ghost n0: nat) returns (e: Option<Error>)
      requires cluster.Valid() && n < |items| && IsManifestItem(items[n], cluster.x, ns) && AreDistinct(ItemKeys(items, ns))
      requires n0 <= |cluster.log| && ArePlaced(cluster.log, n0, items, ns, rule, n)
      modifies cluster
      ensures cluster.Progressed()
      ensures e.None? ==> cluster.Faults() == old(cluster.Faults()) && ArePlaced(cluster.log, n0, items, ns, rule, n + 1)
      ensures old(cluster.Calm()) ==> (e.None? <==> IsKnown(items[n]))
      ensures old(cluster.Calm()) && Installing(s, old(cluster.objects), items, ns, rule, n) && e.None? ==>
        Installing(s, cluster.objects, items, ns, rule, n + 1)
    {
      e := PlaceItem(n, ns, n0);
      if old(cluster.Calm()) && Installing(s, old(cluster.objects), items, ns, rule, n) && e.None? {
        InstallStep(s, old(cluster.objects), items, ns, rule, n, cluster.objects);
      }
    }

    method InstallItems(ns: string) returns (e: Option<Error>)
      requires Valid(ns)
      modifies cluster
      ensures cluster.Progressed()
      ensures e.None? ==> cluster.Faults() == old(cluster.Faults())
      ensures e.None? ==> ArePlaced(cluster.log, |old(cluster.log)|, items, ns, rule, |items|)
      ensures old(cluster.Calm()) ==>
        && (e.None? <==> AllKnown(items))
        && (e.None? ==> IsInstalled(old(cluster.objects), cluster.objects, items, ns, rule))
    {
      ghost var s := cluster.objects;
      e := None;
      assert Installing(s, s, items, ns, rule, 0);
      for i := 0 to |items|
        invariant cluster.Progressed() && e.None? && cluster.Faults() == old(cluster.Faults())
        invariant ArePlaced(cluster.log, |old(cluster.log)|, items, ns, rule, i)
        invariant old(cluster.Calm()) ==> Installing(s, cluster.objects, items, ns, rule, i)
      {
        e := InstallItem(i, ns, s, |old(cluster.log)|);
        assert cluster.Progressed();
        if e.Some? {
          break;
        }
      }
      if e.None? && old(cluster.Calm()) {
        InstallEnds(s, cluster.objects, items, ns, rule);
      }
    }

    /** The namespace's service account leaves the binding, which must exist. */
    method UninstallBinding(item: Item, ns: string) returns (end: SweepEnd)
      requires cluster.Valid() && item.kind == ClusterRoleBinding
      modifies cluster
      ensures cluster.Progressed()
      ensures !end.Early? && (GoodBindings(cluster.initial) ==> !end.Panic?)
      ensures end.Through? ==> |cluster.log| > |old(cluster.log)| && cluster.Failures() == old(cluster.Failures())
      ensures end.Through? && GoodBindings(cluster.initial) ==> !HasSubject(cluster.objects, ItemKey(item, ns), ns)
      ensures old(cluster.Calm()) && GoodBindings(cluster.initial) ==>
        && end == (if Stops(old(cluster.objects), item, ns) then Failure else Through)
        && cluster.objects == Put(old(cluster.objects), ItemKey(item, ns), Remainder(old(cluster.objects), item, ns))
    {
      var key := ItemKey(item, ns);
      var got := cluster.Get(key);
      assert cluster.Progressed();
      if got.Err? {
        return Failure;
      }
      if !got.value.Binding? {
        return Through;
      }
      if GoodBindings(cluster.initial) {
        BindingsStayGood(cluster.x, cluster.initial, cluster.log, |cluster.log|);
      }
      end := RemoveFrom(key, got.value.subjects, ns);
    }

    method RemoveFrom(key: Key, s: seq<Subject>, ns: string) returns (end: SweepEnd)
      requires cluster.Valid() && key.kind == ClusterRoleBinding
      requires key in cluster.objects ==> cluster.objects[key] == Binding(s)
      modifies cluster
      ensures cluster.Progressed()
      ensures !end.Early? && (AtMostOnePerNamespace(s) ==> !end.Panic?)
      ensures end.Through? ==> cluster.Failures() == old(cluster.Failures())
      ensures end.Through? && AtMostOnePerNamespace(s) ==> !HasSubject(cluster.objects, key, ns)
      ensures old(cluster.Calm()) && AtMostOnePerNamespace(s) && key in old(cluster.objects) ==>
        end.Through? && cluster.objects == old(cluster.objects)[key := Binding(Without(s, ns))]
    {
      var v := new Slice(s);
      assert v.backing[..v.len] == s;
      var loop, patches := RemoveNamespace(cluster, key, v, ns);
      if AtMostOnePerNamespace(s) && !loop.PatchFailed? {
        GoodListEndsWithout(s, ns, v.backing[..], patches, loop.Panicked?);
        assert InStep(old(cluster.objects), old(cluster.Calm()), cluster.objects, key, v.backing[..v.len]);
        WithoutNone(s, ns);
        assert !HasAccount(Without(s, ns), ns);
      }
      end := match loop case Finished => Through case PatchFailed => Failure case Panicked => Panic;
    }

    method UninstallItem(item: Item, ns: string) returns (end: SweepEnd)
      requires cluster.Valid() && IsManifestItem(item, cluster.x, ns)
      modifies cluster
      ensures cluster.Progressed()
      ensures GoodBindings(cluster.initial) ==> !end.Panic?
      ensures end.Through? || end.Early? ==> cluster.Failures() == old(cluster.Failures())
      ensures end.Early? ==> |cluster.log| > |old(cluster.log)| && Misses(cluster.Latest(), item, ns)
      ensures end.Through? && GoodBindings(cluster.initial) ==> IsRemoved(cluster.log, |old(cluster.log)|, item, ns)
      ensures old(cluster.Calm()) && GoodBindings(cluster.initial) ==>
        && end == EndAt(old(cluster.objects), item, ns)
        && cluster.objects == Put(old(cluster.objects), ItemKey(item, ns), Remainder(old(cluster.objects), item, ns))
    {
      if item.kind == ClusterRole {
        end := Through;
      } else if item.kind == ClusterRoleBinding {
        end := UninstallBinding(item, ns);
        assert end.Through? && GoodBindings(cluster.initial) ==> Removes(cluster.Latest(), item, ns);
      } else {
        ItemIsHarmless(item, cluster.x, ns, item.content);
        var e := cluster.Delete(ItemKey(item, ns));
        assert e.None? ==> Removes(cluster.Latest(), item, ns);
        end := if e.None? then Through else if e.value == NotFound then Early else Failure;
      }
    }

    method UninstallItems(ns: string) returns (end: SweepEnd)
      requires Valid(ns)
      modifies cluster
      ensures cluster.Progressed()
      ensures GoodBindings(cluster.initial) ==> !end.Panic?
      ensures end.Through? || end.Early? ==> cluster.Failures() == old(cluster.Failures())
      ensures end.Early? ==> |cluster.log| > |old(cluster.log)| && MissesOne(cluster.Latest(), items, ns)
      ensures end.Through? && GoodBindings(cluster.initial) ==> AreRemoved(cluster.log, |old(cluster.log)|, items, ns, 0)
      ensures old(cluster.Calm()) && GoodBindings(cluster.initial) ==>
        SweepResult(cluster.objects, end) == Sweep(items, ns, |items|, old(cluster.objects))
    {
      ghost var exact := cluster.Calm() && GoodBindings(cluster.initial);
      end := UninstallAll(ns, Sweep(items, ns, |items|, cluster.objects), exact);
    }

    /** The backward loop; undisturbed it ends in `goal` if it is on course to it. */
    method UninstallAll(ns: string, ghost goal: SweepResult, ghost exact: bool) returns (end: SweepEnd)
      requires Valid(ns)
      requires exact ==> cluster.Calm() && GoodBindings(cluster.initial) && OnCourse(items, ns, |items|, cluster.objects, goal)
      modifies cluster
      ensures cluster.Progressed()
      ensures GoodBindings(cluster.initial) ==> !end.Panic?
      ensures end.Through? || end.Early? ==> cluster.Failures() == old(cluster.Failures())
      ensures end.Early? ==> |cluster.log| > |old(cluster.log)| && MissesOne(cluster.Latest(), items, ns)
      ensures end.Through? && GoodBindings(cluster.initial) ==> AreRemoved(cluster.log, |old(cluster.log)|, items, ns, 0)
      ensures exact ==> goal == SweepResult(cluster.objects, end)
    {
      var n := |items|;
      end := Through;
      for i := 0 to |items|
        invariant cluster.Progressed() && end.Through? && n == |items| - i && cluster.Failures() == old(cluster.Failures())
        invariant GoodBindings(cluster.initial) ==> AreRemoved(cluster.log, |old(cluster.log)|, items, ns, n)
        invariant exact ==> OnCourse(items, ns, n, cluster.objects, goal)
      {
        var m := n - 1;
        end := UninstallLast(n, m, ns, goal, exact, |old(cluster.log)|);
        assert cluster.Progressed();
        if !end.Through? {
          break;
        }
        n := m;
      }
    }

    /** One round of the backward loop: the last of the first `n` items, after which there are `m` left. */
    method UninstallLast(n: nat, m: nat, ns: string, ghost goal: SweepResult, ghost exact: bool, ghost n0: nat) returns (end: SweepEnd)
      requires cluster.Valid() && m + 1 == n <= |items| && IsManifestItem(items[m], cluster.x, ns)
      requires n0 <= |cluster.log| && (GoodBindings(cluster.initial) ==> AreRemoved(cluster.log, n0, items, ns, n))
      requires exact ==> cluster.Calm() && GoodBindings(cluster.initial) && OnCourse(items, ns, n, cluster.objects, goal)
      modifies cluster
      ensures cluster.Progressed()
      ensures GoodBindings(cluster.initial) ==> !end.Panic?
      ensures end.Through? || end.Early? ==> cluster.Failures() == old(cluster.Failures())
      ensures end.Early? ==> |cluster.log| > |old(cluster.log)| && MissesOne(cluster.Latest(), items, ns)
      ensures end.Through? && GoodBindings(cluster.initial) ==> AreRemoved(cluster.log, n0, items, ns, m)
      ensures exact ==> if end.Through? then OnCourse(items, ns, m, cluster.objects, goal) else goal == SweepResult(cluster.objects, end)
    {
      end := RemoveItem(n, m, ns, n0);
      if exact {
        SweepsOn(items, ns, n, m, old(cluster.objects), goal);
      }
    }

    method RemoveItem(n: nat, m: nat, ns: string, ghost n0: nat) returns (end: SweepEnd)
      requires cluster.Valid() && m + 1 == n <= |items| && IsManifestItem(items[m], cluster.x, ns)
      requires n0 <= |cluster.log| && (GoodBindings(cluster.initial) ==> AreRemoved(cluster.log, n0, items, ns, n))
      modifies cluster
      ensures cluster.Progressed()
      ensures GoodBindings(cluster.initial) ==> !end.Panic?
      ensures end.Through? || end.Early? ==> cluster.Failures() == old(cluster.Failures())
      ensures end.Early? ==> |cluster.log| > |old(cluster.log)| && MissesOne(cluster.Latest(), items, ns)
      ensures end.Through? && GoodBindings(cluster.initial) ==> AreRemoved(cluster.log, n0, items, ns, m)
      ensures old(cluster.Calm()) && GoodBindings(cluster.initial) ==>
        && end == EndAt(old(cluster.objects), items[m], ns)
        && cluster.objects == Put(old(cluster.objects), ItemKey(items[m], ns), Remainder(old(cluster.objects), items[m], ns))
    {
      end := UninstallItem(items[m], ns);
      if end.Through? && GoodBindings(cluster.initial) {
        OneMoreIsRemoved(old(cluster.log), cluster.log, n0, items, ns, n, m);
      }
    }

    /** `panicked`: the loop over a binding's subjects sliced beyond their end. */
    method UninstallOperator(ns: string) returns (e: Option<Error>, panicked: bool)
      requires Valid(ns) && (ns == cluster.x.ns ==> cluster.mode.teardown)
      modifies cluster
      ensures cluster.Progressed()
      ensures GoodBindings(cluster.initial) ==> !panicked
      ensures e.None? ==> AllSucceed(cluster.log, |old(cluster.log)|, |cluster.log|) && cluster.Failures() == old(cluster.Failures())
      ensures e.None? ==> |cluster.log| > |old(cluster.log)| && EndsUninstallation(cluster.Latest(), items, ns)
      ensures e.None? && GoodBindings(cluster.initial) && cluster.Latest().op == DropNamespace(ns) ==>
        AreRemoved(cluster.log, |old(cluster.log)|, items, ns, 0)
      ensures old(cluster.Calm()) && GoodBindings(cluster.initial) ==>
        && (e.None? <==> Succeeds(old(cluster.objects), items, ns))
        && IsUninstalled(old(cluster.objects), cluster.objects, items, ns)
    {
      var end := UninstallItems(ns);
      ghost var s, mid := old(cluster.objects), cluster.objects;
      panicked := end == Panic;
      ghost var log := cluster.log;
      if end == Through {
        e := DropRest(ns);
        if e.None? && GoodBindings(cluster.initial) {
          AllStillRemoved(log, cluster.log, |old(cluster.log)|, items, ns);
        }
      } else {
        e := if end == Early then None else Some(Failed);
      }
      if old(cluster.Calm()) && GoodBindings(cluster.initial) {
        SweepIsExact(s, items, ns);
        SweptKeepsNamespace(s, mid, items, cluster.x, ns, end);
        SweptThenRest(s, mid, cluster.objects, items, ns, end);
      }
      if e.None? {
        SuccessInAnyRun(old(cluster.log));
      }
    }

    lemma SuccessInAnyRun(log: seq<Entry>)
      requires cluster.Valid() && log <= cluster.log && TallyAt(log, |log|).failed == cluster.Failures()
      ensures AllSucceed(cluster.log, |log|, |cluster.log|)
    {
      assert TallyAt(cluster.log, |log|) == TallyAt(log, |log|);
      SameTally(cluster.x, cluster.initial, cluster.log, |log|, |cluster.log|);
    }

    /** The pod environment map may be missing, the namespace may not. */
    method DropRest(ns: string) returns (e: Option<Error>)
      requires cluster.Valid() && (ns == cluster.x.ns ==> cluster.mode.teardown)
      modifies cluster
      ensures cluster.Progressed()
      ensures e.None? ==> cluster.Failures() == old(cluster.Failures()) && |cluster.log| > |old(cluster.log)|
      ensures e.None? ==> Drops(cluster.Latest(), ns)
      ensures old(cluster.Calm()) ==>
        && (e.None? <==> NamespaceKey(ns) in old(cluster.objects))
        && cluster.objects == WithoutNamespace(old(cluster.objects) - {PodConfigKey(ns)}, ns)
    {
      e := DeletePodEnvironmentConfigMap(ns);
      assert cluster.Progressed();
      NamespaceIsNoMap(old(cluster.objects), ns);
      if e.None? {
        e := cluster.DeleteNamespace(ns);
      }
    }

    method DeletePodEnvironmentConfigMap(ns: string) returns (e: Option<Error>)
      requires cluster.Valid()
      modifies cluster
      ensures cluster.Progressed()
      ensures e.None? ==> cluster.Failures() == old(cluster.Failures())
      ensures old(cluster.Calm()) ==>
        e.None? && cluster.objects == old(cluster.objects) - {PodConfigKey(ns)}
    {
      EnvironmentIsHarmless(cluster.x, ns, Plain);
      e := cluster.Delete(PodConfigKey(ns));
      if e == Some(NotFound) {
        e := None;
      }
    }

    /** Anything but a clear answer that the service is missing counts as "still there". */
    method IsOperatorDeletable(ns: string, service: Key) returns (r: Result<bool>)
      requires cluster.Valid()
      modifies cluster
      ensures cluster.Progressed()
      ensures r == Ok(true) ==> service !in cluster.objects && cluster.Failures() == old(cluster.Failures())
      ensures r == Ok(true) && cluster.mode.teardown && ns == cluster.x.ns && !HasZalando(cluster.x, old(cluster.objects)) ==>
        NoStatefulSets(cluster.objects, ns)
      ensures old(cluster.Calm()) ==>
        && cluster.objects == old(cluster.objects)
        && r == Ok(NoStatefulSets(cluster.objects, ns) && service !in cluster.objects)
    {
      var sets := cluster.List(StatefulSet, ns);
      if sets.Err? {
        return Err(sets.error);
      }
      if |sets.value| != 0 {
        assert sets.value[0] in sets.value;
        return Ok(false);
      }
      assert NoStatefulSets(cluster.objects, ns);
      if cluster.mode.teardown {
        NoneReturns(cluster, old(cluster.log), old(cluster.objects));
        NoNewZalando(cluster.x, old(cluster.objects), cluster.objects);
      }
      ghost var log, s := cluster.log, cluster.objects;
      var got := cluster.Get(service);
      if cluster.mode.teardown {
        NoneReturns(cluster, log, s);
      }
      r := Ok(got == Err(NotFound));
    }

    method IsOperatorInstalled(ns: string) returns (r: Result<bool>)
      requires cluster.Valid()
      modifies cluster
      ensures cluster.Progressed()
      ensures r.Ok? ==> |cluster.log| > |old(cluster.log)| && cluster.Failures() == old(cluster.Failures())
      ensures r.Ok? ==> (r.value <==> HasOperatorPod(cluster.objects, ns))
      ensures old(cluster.Calm()) ==>
        && cluster.objects == old(cluster.objects)
        && r == Ok(HasOperatorPod(cluster.objects, ns))
    {
      var pods := cluster.List(OperatorPod, ns);
      if pods.Err? {
        return Err(pods.error);
      }
      assert |pods.value| > 0 ==> pods.value[0] in pods.value;
      r := Ok(|pods.value| > 0);
    }
  }
}
