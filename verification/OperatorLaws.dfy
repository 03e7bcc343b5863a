/** What installation and uninstallation are to each other, and when an uninstallation does its work. */
module OperatorLaws {
  import opened Kube
  import opened World
  import opened Subjects
  import opened Operator
  import Names

  // ------------------------------------------------- the manifest that is shipped

  const OPERATOR := "postgres-operator"
  const POD := "postgres-pod"

  /** The rules of the two shipped roles, each by the first of its resources. */
  const OPERATOR_RULES := ["postgresqls", "postgresteams", "customresourcedefinitions", "configmaps", "events", "endpoints",
                           "secrets", "nodes", "persistentvolumeclaims", "persistentvolumes", "pods", "pods/exec", "services",
                           "statefulsets", "cronjobs", "namespaces", "poddisruptionbudgets", "serviceaccounts", "rolebindings"]
  const POD_RULES := ["configmaps", "endpoints", "pods", "services"]

  /** The items of the shipped manifest, in their order. */
  const MANIFEST: seq<Item> := [
    Item(ConfigMap, Text(OPERATOR), Data(map[])),
    Item(ServiceAccount, Text(OPERATOR), Plain),
    Item(ClusterRole, Text(OPERATOR), Rules(OPERATOR_RULES)),
    Item(ClusterRoleBinding, Text(OPERATOR), Binding([Subject(ServiceAccountSubject, OPERATOR, "default")])),
    Item(ClusterRole, Text(POD), Rules(POD_RULES)),
    Item(Deployment, Text(OPERATOR), Plain),
    Item(Service, Text(OPERATOR), Plain)]

  lemma OperatorNameIsNotDerived(p: Names.Postgres, suffix: string)
    ensures Names.ResourceName(p) + suffix != OPERATOR
  {
    Names.DerivedNamesAreNotFixed(p, suffix);
    assert OPERATOR[..2][1] == 'o';
  }

  /** No service of the instance is called like the operator. */
  lemma ServicesAreNotTheOperator(p: Names.Postgres, encrypted: bool)
    ensures var x := TargetOf(p, encrypted);
            x.sharedLB.name != Text(OPERATOR) && x.dedicatedLB.name != Text(OPERATOR) && x.clusterService.name != Text(OPERATOR)
  {
    OperatorNameIsNotDerived(p, "");
    assert Names.ResourceName(p) + "" == Names.ResourceName(p);
    OperatorNameIsNotDerived(p, "-external");
    OperatorNameIsNotDerived(p, "-dedicated");
  }

  lemma NamedItemFits(item: Item, x: Target, ns: string)
    requires IsKnown(item) && (item.kind == ClusterRoleBinding ==> StartsWithItsAccount(item.content)) && item.name.Text?
    requires item.kind == Service ==> item.name != x.sharedLB.name && item.name != x.dedicatedLB.name && item.name != x.clusterService.name
    ensures IsManifestItem(item, x, ns)
  {
  }

  /** It meets what the code relies on, for every instance and every namespace. */
  lemma ShippedManifestIsGood(p: Names.Postgres, encrypted: bool, ns: string)
    ensures IsManifest(MANIFEST, TargetOf(p, encrypted), ns) && AllKnown(MANIFEST)
  {
    ServicesAreNotTheOperator(p, encrypted);
    ManifestKeysDiffer(ns);
    ItemsFit(TargetOf(p, encrypted), ns);
  }

  lemma ItemsFit(x: Target, ns: string)
    requires x.sharedLB.name != Text(OPERATOR) && x.dedicatedLB.name != Text(OPERATOR) && x.clusterService.name != Text(OPERATOR)
    ensures AllKnown(MANIFEST) && forall i :: 0 <= i < |MANIFEST| ==> IsManifestItem(MANIFEST[i], x, ns)
  {
    forall i | 0 <= i < |MANIFEST|
      ensures IsManifestItem(MANIFEST[i], x, ns)
    {
      NamedItemFits(MANIFEST[i], x, ns);
    }
  }

  lemma ManifestKeysDiffer(ns: string)
    ensures AreDistinct(ItemKeys(MANIFEST, ns))
  {
    assert OPERATOR != POD by {
      assert |OPERATOR| != |POD|;
    }
  }

  // ------------------------------------------------- when an uninstallation succeeds

  /** It succeeds if and only if the last of the missing objects is one in the namespace, or none is
      missing and the namespace exists. */
  lemma SuccessExactly(s: Store, items: seq<Item>, ns: string)
    ensures Succeeds(s, items, ns) <==>
      if forall i :: 0 <= i < |items| ==> !Stops(s, items[i], ns) then NamespaceKey(ns) in s
      else exists i :: 0 <= i < |items| && Stops(s, items[i], ns) && items[i].kind != ClusterRoleBinding
             && forall j :: i < j < |items| ==> !Stops(s, items[j], ns)
  {
    var m := StopAt(s, items, ns, |items|);
    if m > 0 {
      assert Stops(s, items[m - 1], ns);
    }
  }

  /** While the shared binding exists, whatever else is missing, an uninstallation succeeds if the namespace
      exists or one of the namespace's manifest objects is missing. */
  lemma SuccessWithTheBinding(s: Store, items: seq<Item>, ns: string)
    requires forall i :: 0 <= i < |items| && items[i].kind == ClusterRoleBinding ==> !Stops(s, items[i], ns)
    ensures Succeeds(s, items, ns) <==>
      NamespaceKey(ns) in s || exists i :: 0 <= i < |items| && Stops(s, items[i], ns)
  {
    var m := StopAt(s, items, ns, |items|);
    if m > 0 {
      assert Stops(s, items[m - 1], ns);
    }
  }

  /** The namespace goes if and only if no binding and no object of the manifest is missing; any that is
      keeps it, even though the uninstallation may report success. */
  lemma NamespaceGoesExactly(s: Store, t: Store, items: seq<Item>, x: Target, ns: string)
    requires IsManifest(items, x, ns) && IsUninstalled(s, t, items, ns) && NamespaceKey(ns) in s
    ensures NamespaceKey(ns) !in t <==> forall i :: 0 <= i < |items| ==> !Stops(s, items[i], ns)
  {
    var m := StopAt(s, items, ns, |items|);
    var mid :| IsSwept(s, mid, items, ns, m) && t == if m > 0 then mid else WithoutNamespace(mid - {PodConfigKey(ns)}, ns);
    assert Swept(s, mid, items, ns, if m == 0 then Through else EndAt(s, items[m - 1], ns));
    SweptKeepsNamespace(s, mid, items, x, ns, if m == 0 then Through else EndAt(s, items[m - 1], ns));
    if m > 0 {
      assert Stops(s, items[m - 1], ns);
    }
  }

  /** An uninstallation that failed after its first deletion, when tried again, reports success and
      changes nothing at all: everything else stays installed. */
  lemma SecondTryDoesNothing(s: Store, t: Store, items: seq<Item>, ns: string)
    requires items != [] && IsUninstalled(s, t, items, ns)
    requires var last := items[|items| - 1]; !IsShared(last) && ItemKey(last, ns) !in s
    ensures Succeeds(s, items, ns) && t == s
  {
    assert Stops(s, items[|items| - 1], ns) && StopAt(s, items, ns, |items|) == |items|;
    assert Written(s, t, ItemKeys(items, ns), Remainders(s, items, ns), |items|, |items|);
    assert forall k :: Lookup(t, k) == Lookup(s, k);
    forall k
      ensures (k in t <==> k in s) && (k in s ==> t[k] == s[k])
    {
      assert Lookup(t, k) == Lookup(s, k);
    }
  }

  function ManifestKey(kind: Kind, ns: string): Key { ItemKey(Item(kind, Text(OPERATOR), Plain), ns) }

  function Account(ns: string): Subject { Subject(ServiceAccountSubject, OPERATOR, ns) }

  /** A namespace with the shipped manifest installed, and nothing else. */
  function Installed(ns: string, rule: string): Store {
    map[NamespaceKey(ns) := Plain,
        ManifestKey(ConfigMap, ns) := Data(map[]),
        ManifestKey(ServiceAccount, ns) := Plain,
        ManifestKey(ClusterRole, ns) := Rules(OPERATOR_RULES + [rule]),
        ManifestKey(ClusterRoleBinding, ns) := Binding([Account(ns)]),
        Key(ClusterRole, "", Text(POD)) := Rules(POD_RULES + [rule]),
        ManifestKey(Deployment, ns) := Plain,
        ManifestKey(Service, ns) := Plain]
  }

  lemma InstalledIsInstalled(ns: string, rule: string)
    ensures IsInstalled(map[NamespaceKey(ns) := Plain], Installed(ns, rule), MANIFEST, ns, rule)
  {
    var s, t, ks := map[NamespaceKey(ns) := Plain], Installed(ns, rule), ItemKeys(MANIFEST, ns);
    forall i | 0 <= i < |MANIFEST|
      ensures Lookup(t, ks[i]) == InstalledValues(s, MANIFEST, ns, rule)[i]
    {
      InstalledAt(ns, rule, i);
    }
    forall k | k !in ks[0..|ks|]
      ensures Lookup(t, k) == Lookup(s, k)
    {
      assert ks[0..|ks|] == ks;
      assert ks[0] != k && ks[1] != k && ks[2] != k && ks[3] != k && ks[4] != k && ks[5] != k && ks[6] != k;
    }
  }

  lemma InstalledAt(ns: string, rule: string, i: nat)
    requires i < |MANIFEST|
    ensures Lookup(Installed(ns, rule), ItemKey(MANIFEST[i], ns)) ==
              Some(InstalledValue(map[NamespaceKey(ns) := Plain], MANIFEST[i], ns, rule))
  {
    assert InNamespace([Subject(ServiceAccountSubject, OPERATOR, "default")], ns) == [Account(ns)];
    assert OPERATOR != POD by {
      assert |OPERATOR| != |POD|;
    }
  }

  /** What an uninstallation leaves that was interrupted after its first deletion. */
  function Interrupted(ns: string, rule: string): Store {
    Installed(ns, rule) - {ManifestKey(Service, ns)}
  }

  /** Tried again, it reports success and changes nothing: operator and namespace stay, and the shared
      binding goes on naming the namespace. */
  lemma SecondTryLeaks(ns: string, rule: string, t: Store)
    ensures IsInstalled(map[NamespaceKey(ns) := Plain], Installed(ns, rule), MANIFEST, ns, rule)
    ensures var s := Interrupted(ns, rule);
            && Succeeds(s, MANIFEST, ns) && (IsUninstalled(s, t, MANIFEST, ns) <==> t == s)
            && NamespaceKey(ns) in s && ManifestKey(Deployment, ns) in s
            && HasAccount(SubjectsOf(s[ManifestKey(ClusterRoleBinding, ns)]), ns)
  {
    InstalledIsInstalled(ns, rule);
    var s := Interrupted(ns, rule);
    var last := MANIFEST[|MANIFEST| - 1];
    assert ItemKey(last, ns) !in s && Stops(s, last, ns);
    assert StopAt(s, MANIFEST, ns, |MANIFEST|) == |MANIFEST|;
    if IsUninstalled(s, t, MANIFEST, ns) {
      SecondTryDoesNothing(s, t, MANIFEST, ns);
    }
    assert IsSwept(s, s, MANIFEST, ns, |MANIFEST|);
    assert SubjectsOf(s[ManifestKey(ClusterRoleBinding, ns)])[0] == Account(ns);
  }

  /** Everything of the manifest is there but the binding. */
  function Unbound(ns: string, rule: string): Store {
    Installed(ns, rule) - {ManifestKey(ClusterRoleBinding, ns)}
  }

  /** Then no uninstallation succeeds. */
  lemma MissingBindingBlocks(ns: string, rule: string)
    ensures !Succeeds(Unbound(ns, rule), MANIFEST, ns)
  {
    var s := Unbound(ns, rule);
    assert Stops(s, MANIFEST[3], ns);
    assert forall j :: 3 < j < 7 ==> !Stops(s, MANIFEST[j], ns);
    SuccessExactly(s, MANIFEST, ns);
  }

  // ------------------------------------------------- install, then uninstall

  /** Nothing of the namespace exists yet. */
  ghost predicate IsFresh(s: Store, ns: string) {
    ns != "" && NamespaceKey(ns) !in s && forall k :: k in s && k.ns == ns ==> IsControlPlane(k.kind)
  }

  /** Every binding of the manifest that exists is a good one that does not name the namespace. */
  ghost predicate IsUnnamed(s: Store, items: seq<Item>, ns: string) {
    forall i :: 0 <= i < |items| && items[i].kind == ClusterRoleBinding && ItemKey(items[i], ns) in s ==>
      s[ItemKey(items[i], ns)].Binding? && !HasAccount(s[ItemKey(items[i], ns)].subjects, ns)
  }

  /** What is left of an item after an installation and an uninstallation: a cluster role as it was
      installed; a binding that existed exactly as it was, subjects and order; a binding that did not
      exist with its other subjects; and nothing of an object in the namespace. */
  function Leftover(s: Store, item: Item, ns: string, rule: string): Option<Object> {
    var k := ItemKey(item, ns);
    if item.kind == ClusterRole then Some(Prepared(item, ns, rule))
    else if item.kind != ClusterRoleBinding then None
    else if k in s then Some(s[k])
    else if item.content.Binding? && |item.content.subjects| > 0 then Some(Binding(item.content.subjects[1..]))
    else Some(item.content)
  }

  lemma AppendedIsRemoved(list: seq<Subject>, y: Subject, ns: string)
    requires !HasAccount(list, ns) && IsFor(y, ns)
    ensures Without(list + [y], ns) == list
  {
    WithoutOne(list + [y], ns, |list|);
    assert (list + [y])[..|list|] + (list + [y])[|list| + 1..] == list;
  }

  lemma PreparedIsRemoved(item: Item, ns: string, rule: string)
    requires item.kind == ClusterRoleBinding && StartsWithItsAccount(item.content)
    ensures Without(Prepared(item, ns, rule).subjects, ns) == item.content.subjects[1..]
  {
    PreparedIsGood(item, ns, rule);
    var list := InNamespace(item.content.subjects, ns);
    WithoutOne(list, ns, 0);
    assert list[..0] + list[1..] == item.content.subjects[1..];
  }

  lemma ItemRoundTrip(s: Store, t: Store, item: Item, x: Target, ns: string, rule: string)
    requires IsManifestItem(item, x, ns)
    requires var k := ItemKey(item, ns);
             k in s && item.kind == ClusterRoleBinding ==> s[k].Binding? && !HasAccount(s[k].subjects, ns)
    requires Lookup(t, ItemKey(item, ns)) == Some(InstalledValue(s, item, ns, rule))
    ensures !Stops(t, item, ns) && Remainder(t, item, ns) == Leftover(s, item, ns, rule)
  {
    var k := ItemKey(item, ns);
    if item.kind == ClusterRoleBinding {
      PreparedIsGood(item, ns, rule);
      PreparedIsRemoved(item, ns, rule);
      if k in s {
        AppendedIsRemoved(s[k].subjects, Prepared(item, ns, rule).subjects[0], ns);
      }
    }
  }

  predicate IsPreludeKey(ns: string, k: Key) {
    k == NamespaceKey(ns) || k == PodConfigKey(ns) || k == PodSecretKey(ns) || k == SidecarsKey(ns)
  }

  lemma PreludeIsFramed(s: Store, ns: string, global: Key, decode: string -> Option<string>, k: Key)
    requires !IsPreludeKey(ns, k)
    ensures Lookup(Prelude(s, ns, global, decode), k) == Lookup(s, k)
  {
  }

  /** The parts of a round trip that concern one item. */
  lemma ItemInRoundTrip(s: Store, p: Store, t: Store, items: seq<Item>, x: Target, ns: string, rule: string, global: Key, decode: string -> Option<string>, i: nat)
    requires IsManifest(items, x, ns) && IsUnnamed(s, items, ns) && i < |items|
    requires p == Prelude(s, ns, global, decode) && IsInstalled(p, t, items, ns, rule)
    ensures !Stops(t, items[i], ns) && Remainder(t, items[i], ns) == Leftover(s, items[i], ns, rule)
  {
    var k := ItemKey(items[i], ns);
    assert Lookup(t, ItemKeys(items, ns)[i]) == InstalledValues(p, items, ns, rule)[i];
    if IsShared(items[i]) {
      PreludeIsFramed(s, ns, global, decode, k);
      ValueIsOwn(s, p, items[i], ns, rule);
    }
    ItemRoundTrip(p, t, items[i], x, ns, rule);
  }

  lemma NothingStops(s: Store, p: Store, t: Store, items: seq<Item>, x: Target, ns: string, rule: string, global: Key, decode: string -> Option<string>)
    requires IsManifest(items, x, ns) && IsUnnamed(s, items, ns)
    requires p == Prelude(s, ns, global, decode) && IsInstalled(p, t, items, ns, rule)
    ensures StopAt(t, items, ns, |items|) == 0
  {
    forall i | 0 <= i < |items|
      ensures !Stops(t, items[i], ns)
    {
      ItemInRoundTrip(s, p, t, items, x, ns, rule, global, decode, i);
    }
  }

  /** What the uninstallation leaves under one key, in terms of the store before the installation. */
  ghost predicate CameBack(s: Store, u: Store, items: seq<Item>, ns: string, rule: string) {
    && (forall i :: 0 <= i < |items| ==> Lookup(u, ItemKey(items[i], ns)) == Leftover(s, items[i], ns, rule))
    && (forall k :: k !in ItemKeys(items, ns) ==> Lookup(u, k) == Lookup(s, k))
  }

  /** Installing into a fresh namespace and uninstalling again is a round trip: every object of the
      namespace and the namespace itself are gone, everything outside is as before, a binding that
      existed has its old subjects in their old order; only cluster roles and new bindings stay. */
  lemma RoundTrip(s: Store, t: Store, u: Store, items: seq<Item>, x: Target, ns: string, rule: string, global: Key, decode: string -> Option<string>)
    requires IsManifest(items, x, ns) && AllKnown(items) && IsFresh(s, ns) && IsUnnamed(s, items, ns)
    requires global in s
    requires IsInstalled(Prelude(s, ns, global, decode), t, items, ns, rule) && IsUninstalled(t, u, items, ns)
    ensures Succeeds(t, items, ns) && CameBack(s, u, items, ns, rule)
  {
    var p := Prelude(s, ns, global, decode);
    NothingStops(s, p, t, items, x, ns, rule, global, decode);
    var mid :| IsSwept(t, mid, items, ns, 0) && u == WithoutNamespace(mid - {PodConfigKey(ns)}, ns);
    PreludeStays(p, t, mid, items, x, ns, rule);
    ItemsComeBack(s, p, t, mid, u, items, x, ns, rule, global, decode);
    OthersComeBack(s, p, t, mid, u, items, ns, rule, global, decode);
  }

  lemma ItemsComeBack(s: Store, p: Store, t: Store, mid: Store, u: Store, items: seq<Item>, x: Target, ns: string, rule: string,
                      global: Key, decode: string -> Option<string>)
    requires IsManifest(items, x, ns) && IsUnnamed(s, items, ns)
    requires p == Prelude(s, ns, global, decode) && IsInstalled(p, t, items, ns, rule) && IsSwept(t, mid, items, ns, 0)
    requires NamespaceKey(ns) in mid && u == WithoutNamespace(mid - {PodConfigKey(ns)}, ns)
    ensures forall i :: 0 <= i < |items| ==> Lookup(u, ItemKey(items[i], ns)) == Leftover(s, items[i], ns, rule)
  {
    forall i | 0 <= i < |items|
      ensures Lookup(u, ItemKey(items[i], ns)) == Leftover(s, items[i], ns, rule)
    {
      assert Lookup(mid, ItemKeys(items, ns)[i]) == Remainders(t, items, ns)[i];
      ItemInRoundTrip(s, p, t, items, x, ns, rule, global, decode, i);
      ItemOutlives(mid, u, items[i], x, ns, s, rule);
    }
  }

  lemma OthersComeBack(s: Store, p: Store, t: Store, mid: Store, u: Store, items: seq<Item>, ns: string, rule: string,
                       global: Key, decode: string -> Option<string>)
    requires IsFresh(s, ns) && global in s
    requires p == Prelude(s, ns, global, decode) && IsInstalled(p, t, items, ns, rule) && IsSwept(t, mid, items, ns, 0)
    requires NamespaceKey(ns) in mid && u == WithoutNamespace(mid - {PodConfigKey(ns)}, ns)
    ensures forall k :: k !in ItemKeys(items, ns) ==> Lookup(u, k) == Lookup(s, k)
  {
    var ks := ItemKeys(items, ns);
    forall k | k !in ks
      ensures Lookup(u, k) == Lookup(s, k)
    {
      assert Lookup(mid, k) == Lookup(p, k) by {
        assert k !in ks[0..|ks|];
      }
      RestComesBack(s, p, mid, u, ns, global, decode, k);
    }
  }

  lemma PreludeStays(p: Store, t: Store, mid: Store, items: seq<Item>, x: Target, ns: string, rule: string)
    requires IsManifest(items, x, ns) && IsInstalled(p, t, items, ns, rule) && IsSwept(t, mid, items, ns, 0)
    ensures Lookup(mid, NamespaceKey(ns)) == Lookup(p, NamespaceKey(ns))
  {
    NamespaceIsNoItem(items, x, ns);
  }

  /** Shared objects outlive the namespace; the others are gone already. */
  lemma ItemOutlives(mid: Store, u: Store, item: Item, x: Target, ns: string, s: Store, rule: string)
    requires IsManifestItem(item, x, ns) && NamespaceKey(ns) in mid
    requires u == WithoutNamespace(mid - {PodConfigKey(ns)}, ns)
    requires Lookup(mid, ItemKey(item, ns)) == Leftover(s, item, ns, rule)
    ensures Lookup(u, ItemKey(item, ns)) == Leftover(s, item, ns, rule)
  {
  }

  /** So are the namespace and what came before the manifest; all else is as it was. */
  lemma RestComesBack(s: Store, p: Store, mid: Store, u: Store, ns: string, global: Key, decode: string -> Option<string>, k: Key)
    requires IsFresh(s, ns) && global in s && p == Prelude(s, ns, global, decode)
    requires Lookup(mid, k) == Lookup(p, k) && NamespaceKey(ns) in mid
    requires u == WithoutNamespace(mid - {PodConfigKey(ns)}, ns)
    ensures Lookup(u, k) == Lookup(s, k)
  {
    if !IsPreludeKey(ns, k) {
      PreludeIsFramed(s, ns, global, decode, k);
    }
  }
}
