/** What the passes of one instance rest on: the stages of a deletion, the rules their calls keep to, and
    when an undisturbed pass comes to its end. */
module Passes {
  import opened Kube
  import opened Names
  import opened World
  import opened History
  import opened Operator
  import opened OperatorLaws

  // ------------------------------------------------- the stages of a deletion

  /** How far a deletion pass has come: the first `stage` kinds of objects are gone. */
  predicate GoneUpTo(x: Target, s: Store, stage: nat) {
    && (stage >= 1 ==> x.policy !in s)
    && (stage >= 2 ==> x.sharedLB !in s)
    && (stage >= 3 ==> x.dedicatedLB !in s)
    && (stage >= 4 ==> x.exporter !in s)
    && (stage >= 5 ==> !HasZalando(x, s))
    && (stage >= 6 ==> NoStatefulSets(s, x.ns) && x.clusterService !in s)
    && (stage >= 7 ==> x.passwords !in s)
  }

  const ALL_STAGES := 7

  lemma StageStays(x: Target, s: Store, t: Store, stage: nat)
    requires NoNewcomers(x, s, t) && GoneUpTo(x, s, stage)
    ensures GoneUpTo(x, t, stage)
  {
    NoNewZalando(x, s, t);
  }

  /** `log` and `s` are the cluster's history and store at an earlier moment of the deletion. */
  lemma StageSurvives(c: Cluster, log: seq<Entry>, s: Store, stage: nat)
    requires c.Valid() && c.mode.teardown && c.begun <= |log| && log <= c.log && s == StateAt(c.initial, log, |log|)
    requires GoneUpTo(c.x, s, stage)
    ensures GoneUpTo(c.x, c.objects, stage)
  {
    NoneReturns(c, log, s);
    StageStays(c.x, s, c.objects, stage);
  }

  lemma InstanceSurvives(c: Cluster, log: seq<Entry>, s: Store)
    requires c.Valid() && log <= c.log && s == StateAt(c.initial, log, |log|) && HasInstance(c.x, s)
    ensures HasInstance(c.x, c.objects)
  {
    assert c.log[..|log|] == log;
    InstanceStays(c.x, c.initial, c.log, |log|, |c.log|);
  }

  lemma KeySurvives(c: Cluster, log: seq<Entry>, s: Store)
    requires c.Valid() && !c.mode.teardown && KeyHeldIfPresent(c.x, c.initial)
    requires log <= c.log && s == StateAt(c.initial, log, |log|) && KeyIsReady(c.x, s)
    ensures KeyIsReady(c.x, c.objects)
  {
    assert c.log[..|log|] == log;
    if c.x.encrypted {
      KeyStaysHeld(c.x, c.initial, c.log, |log|, |c.log|);
    }
  }

  /** Only a deletion pass takes the finalizer away. */
  lemma FinalizerSurvives(c: Cluster, log: seq<Entry>, s: Store)
    requires c.Valid() && !c.mode.teardown
    requires log <= c.log && s == StateAt(c.initial, log, |log|) && Finalized(c.x, s)
    ensures Finalized(c.x, c.objects)
  {
    assert c.log[..|log|] == log;
    if !Finalized(c.x, c.objects) {
      var i := FinalizerGoesLast(c.x, c.initial, c.log, |log|, |c.log|);
      TeardownStays(c.x, c.initial, c.log, i, |c.log| - 1);
    }
  }

  lemma LastStage(x: Target, s: Store)
    ensures GoneUpTo(x, s, ALL_STAGES) <==> AllGone(x, s)
  {
    if AllGone(x, s) {
      assert x.policy !in s && x.sharedLB !in s && x.dedicatedLB !in s && x.exporter !in s;
    }
  }

  lemma FinalizerMayGo(x: Target, s: Store, v: Object, mode: Mode)
    requires GoneUpTo(x, s, ALL_STAGES) && HasInstance(x, s) && v.Instance? && mode.teardown
    ensures MayUpdate(x, s, x.instance, v, mode)
  {
    LastStage(x, s);
  }

  /** Objects without a rule of their own; they may be made as long as no deletion pass has begun. */
  predicate IsOrdinary(x: Target, k: Key) {
    && k != x.instance && k != x.storageSecret && k != x.initMap && k != x.initJob
    && !IsDerived(x, k) && !IsZalando(x, k) && k.kind != ClusterRoleBinding
  }

  lemma OrdinaryMayBeWritten(x: Target, log: seq<Entry>, s: Store, k: Key, mode: Mode)
    requires IsOrdinary(x, k) && !mode.teardown
    ensures MayCreate(x, log, s, k, Plain, mode) && MayUpdate(x, s, k, Plain, mode)
  {
  }

  // ------------------------------------------------- lists of finalizers

  /** The list without one element, everything else in order. */
  function Removed(ss: seq<Finalizer>, s: Finalizer): (r: seq<Finalizer>)
    ensures forall e :: e in r <==> e in ss && e != s
  {
    if ss == [] then []
    else
      var n := |ss| - 1;
      assert ss == ss[..n] + [ss[n]];
      Removed(ss[..n], s) + if ss[n] == s then [] else [ss[n]]
  }

  lemma RemovedOne(e: Finalizer, s: Finalizer)
    ensures Removed([e], s) == if e == s then [] else [e]
  {
    assert [e][..0] == [];
  }

  /** It goes through the list part by part, so nothing is doubled, dropped or reordered. */
  lemma {:induction false} RemovedInParts(a: seq<Finalizer>, b: seq<Finalizer>, s: Finalizer)
    ensures Removed(a + b, s) == Removed(a, s) + Removed(b, s)
  {
    if b == [] {
      assert a + b == a;
    } else {
      var n := |b| - 1;
      RemovedInParts(a, b[..n], s);
      RemovedStep(a + b, s);
      RemovedStep(b, s);
      assert (a + b)[..|a + b| - 1] == a + b[..n];
    }
  }

  lemma RemovedStep(a: seq<Finalizer>, s: Finalizer)
    requires a != []
    ensures Removed(a, s) == Removed(a[..|a| - 1], s) + if a[|a| - 1] == s then [] else [a[|a| - 1]]
  {
  }

  // ------------------------------------------------- what a calm deletion pass leaves alone

  /** What a deletion pass deletes or changes before it comes to the operator. */
  predicate IsTornDown(x: Target, k: Key) {
    || k == x.standbyIngress || k == x.standbyEgress || k == x.policy || k == x.netPol || k == x.storageSecret
    || k == x.sharedLB || k == x.dedicatedLB || k == x.exporter || IsZalando(x, k)
  }

  ghost predicate AgreesBut(x: Target, s: Store, t: Store) {
    && (forall k :: !IsTornDown(x, k) ==> Lookup(t, k) == Lookup(s, k))
    && (forall k :: k in t ==> k in s)
  }

  /** What an undisturbed pass deletes although the finalizer would not wait for it. */
  predicate IsTidy(x: Target, s: Store) {
    x.standbyIngress !in s && x.standbyEgress !in s && x.netPol !in s
  }

  ghost predicate ListsZalandos(x: Target, s: Store, keys: seq<Key>) {
    && (forall i :: 0 <= i < |keys| ==> IsZalando(x, keys[i]) && keys[i] in s)
    && (forall i, j :: 0 <= i < j < |keys| ==> keys[i] != keys[j])
  }

  lemma AllWhenListedAreGone(x: Target, s: Store, keys: seq<Key>)
    requires forall k :: k in keys <==> (k in s && k.kind == Postgresql && k.ns == x.ns)
    requires forall i, j :: 0 <= i < j < |keys| ==> keys[i] != keys[j]
    ensures ListsZalandos(x, s, keys)
    ensures forall t :: AreDeleted(x, s, t, keys, |keys|) ==> !HasZalando(x, t)
  {
    forall i | 0 <= i < |keys|
      ensures IsZalando(x, keys[i]) && keys[i] in s
    {
      assert keys[i] in keys;
    }
    forall t | AreDeleted(x, s, t, keys, |keys|)
      ensures !HasZalando(x, t)
    {
      forall k | IsZalando(x, k)
        ensures k !in t
      {
        assert k in s ==> k in keys;
      }
    }
  }

  /** The first `n` of the listed Zalando resources are gone, and nothing new is there. */
  ghost predicate AreDeleted(x: Target, s: Store, t: Store, keys: seq<Key>, n: nat) {
    n <= |keys| && NoNewcomers(x, s, t) && (forall j :: 0 <= j < n ==> keys[j] !in t)
  }

  /** Nothing else has changed. */
  ghost predicate AreTheOnlyOnes(x: Target, s: Store, t: Store, keys: seq<Key>, n: nat) {
    n <= |keys| && AgreesBut(x, s, t) && (forall j :: n <= j < |keys| ==> keys[j] in t)
  }

  lemma OneMoreIsDeleted(x: Target, s: Store, t: Store, u: Store, keys: seq<Key>, n: nat)
    requires n < |keys| && AreDeleted(x, s, t, keys, n) && ListsZalandos(x, s, keys)
    requires NoNewcomers(x, t, u) && keys[n] !in u
    ensures AreDeleted(x, s, u, keys, n + 1)
    ensures AreTheOnlyOnes(x, s, t, keys, n) && u == t - {keys[n]} ==> AreTheOnlyOnes(x, s, u, keys, n + 1)
  {
    NoNewcomersIsTransitive(x, s, t, u);
  }

  lemma AgreesButIsTransitive(x: Target, s: Store, t: Store, u: Store)
    requires AgreesBut(x, s, t) && AgreesBut(x, t, u)
    ensures AgreesBut(x, s, u)
    ensures IsTidy(x, t) ==> IsTidy(x, u)
  {
  }

  lemma TouchingAgrees(x: Target, s: Store, k: Key, v: Object)
    requires IsTornDown(x, k) && k in s
    ensures AgreesBut(x, s, s) && AgreesBut(x, s, s[k := v]) && AgreesBut(x, s, s - {k})
  {
  }

  /** Whether the operator may be removed and its removal succeeds. */
  predicate CanFinish(x: Target, items: seq<Item>, s: Store) {
    NoStatefulSets(s, x.ns) && x.clusterService !in s && Succeeds(s, items, x.ns)
  }

  /** Deletion progress: while the shared binding exists and the StatefulSets and the cluster service are
      gone, whatever else is missing, an undisturbed pass removes the finalizer, unless the namespace has
      gone although every manifest object in it is still there. */
  lemma DeletionProgresses(x: Target, items: seq<Item>, s: Store)
    requires forall i :: 0 <= i < |items| && items[i].kind == ClusterRoleBinding ==> ItemKey(items[i], x.ns) in s
    requires NoStatefulSets(s, x.ns) && x.clusterService !in s
    ensures CanFinish(x, items, s) <==>
      NamespaceKey(x.ns) in s || exists i :: 0 <= i < |items| && Stops(s, items[i], x.ns)
  {
    SuccessWithTheBinding(s, items, x.ns);
  }

  /** Nothing but secrets, which a finalizer may hold, is left of a namespace that is gone. */
  predicate NoneOutlivesItsNamespace(s: Store, ns: string) {
    NamespaceKey(ns) in s || forall k :: k in s && k.ns == ns && k.kind != Secret ==> IsControlPlane(k.kind) || IsClusterScoped(k.kind)
  }

  /** So with a manifest that puts anything at all into the namespace, the pass always finishes. */
  lemma DeletionFinishes(x: Target, items: seq<Item>, s: Store, i: nat)
    requires forall i :: 0 <= i < |items| && items[i].kind == ClusterRoleBinding ==> ItemKey(items[i], x.ns) in s
    requires NoStatefulSets(s, x.ns) && x.clusterService !in s
    requires NoneOutlivesItsNamespace(s, x.ns) && i < |items| && IsKnown(items[i]) && !IsShared(items[i])
    ensures CanFinish(x, items, s)
  {
    assert NamespaceKey(x.ns) in s || Stops(s, items[i], x.ns) by {
      if ItemKey(items[i], x.ns) in s && NamespaceKey(x.ns) !in s {
        assert ItemKey(items[i], x.ns).ns == x.ns;
      }
    }
    DeletionProgresses(x, items, s);
  }

  /** With the shipped manifest: once StatefulSets and cluster service are gone and while the shared
      binding exists, an undisturbed pass always removes the finalizer, whatever else is missing. */
  lemma ShippedDeletionFinishes(x: Target, s: Store)
    requires Key(ClusterRoleBinding, "", Text(OPERATOR)) in s
    requires NoStatefulSets(s, x.ns) && x.clusterService !in s && NoneOutlivesItsNamespace(s, x.ns)
    ensures CanFinish(x, MANIFEST, s)
  {
    DeletionFinishes(x, MANIFEST, s, 0);
  }

  lemma StopsAgree(x: Target, items: seq<Item>, s: Store, t: Store)
    requires IsManifest(items, x, x.ns) && AgreesBut(x, s, t)
    ensures StopAt(s, items, x.ns, |items|) == StopAt(t, items, x.ns, |items|)
  {
    forall i | 0 <= i < |items|
      ensures Stops(t, items[i], x.ns) <==> Stops(s, items[i], x.ns)
    {
      ItemAgrees(x, items, s, t, i);
    }
    SameStops(items, x.ns, s, t, |items|);
  }

  lemma {:induction false} SameStops(items: seq<Item>, ns: string, s: Store, t: Store, n: nat)
    requires n <= |items| && forall i :: 0 <= i < n ==> (Stops(t, items[i], ns) <==> Stops(s, items[i], ns))
    ensures StopAt(s, items, ns, n) == StopAt(t, items, ns, n)
  {
    if n > 0 {
      SameStops(items, ns, s, t, n - 1);
    }
  }

  lemma SomeAgree(x: Target, s: Store, t: Store)
    requires AgreesBut(x, s, t)
    ensures NoStatefulSets(s, x.ns) <==> NoStatefulSets(t, x.ns)
    ensures NamespaceKey(x.ns) in s <==> NamespaceKey(x.ns) in t
    ensures x.clusterService in s <==> x.clusterService in t
  {
    assert Lookup(t, NamespaceKey(x.ns)) == Lookup(s, NamespaceKey(x.ns));
    assert Lookup(t, x.clusterService) == Lookup(s, x.clusterService);
    forall k: Key | k.kind == StatefulSet
      ensures k in s <==> k in t
    {
      assert Lookup(t, k) == Lookup(s, k);
    }
  }

  lemma SuccessDependsOn(items: seq<Item>, ns: string, s: Store, t: Store)
    requires StopAt(s, items, ns, |items|) == StopAt(t, items, ns, |items|)
    requires NamespaceKey(ns) in s <==> NamespaceKey(ns) in t
    ensures Succeeds(s, items, ns) <==> Succeeds(t, items, ns)
  {
  }

  /** What the pass does first has no influence on that. */
  lemma CanFinishAgrees(x: Target, items: seq<Item>, s: Store, t: Store)
    requires IsManifest(items, x, x.ns) && AgreesBut(x, s, t)
    ensures CanFinish(x, items, s) <==> CanFinish(x, items, t)
  {
    StopsAgree(x, items, s, t);
    SomeAgree(x, s, t);
    SuccessDependsOn(items, x.ns, s, t);
  }

  // ------------------------------------------------- what a deletion leaves behind

  /** What is left of an item: those behind the last missing one are uninstalled, the others are not. */
  function RestOf(s: Store, items: seq<Item>, ns: string, i: nat): Option<Object>
    requires i < |items|
  {
    if i < StopAt(s, items, ns, |items|) then Lookup(s, ItemKey(items[i], ns)) else Remainder(s, items[i], ns)
  }

  ghost predicate RestIsThere(s: Store, t: Store, items: seq<Item>, ns: string) {
    forall i :: 0 <= i < |items| ==> Lookup(t, ItemKey(items[i], ns)) == RestOf(s, items, ns, i)
  }

  predicate SomeStops(s: Store, items: seq<Item>, ns: string) {
    exists i :: 0 <= i < |items| && Stops(s, items[i], ns)
  }

  /** The namespace stays exactly if it was there with one of its manifest objects, or a binding, missing;
      then everything of the manifest before the last missing object stays as well. */
  ghost predicate IsLeftBehind(x: Target, items: seq<Item>, s: Store, t: Store) {
    && (NamespaceKey(x.ns) in t <==> NamespaceKey(x.ns) in s && SomeStops(s, items, x.ns))
    && RestIsThere(s, t, items, x.ns)
  }

  lemma SweptLeavesRest(s: Store, t: Store, items: seq<Item>, ns: string)
    requires AreDistinct(ItemKeys(items, ns)) && IsSwept(s, t, items, ns, StopAt(s, items, ns, |items|))
    ensures RestIsThere(s, t, items, ns)
  {
    var ks, vs, m := ItemKeys(items, ns), Remainders(s, items, ns), StopAt(s, items, ns, |items|);
    forall i | 0 <= i < |items|
      ensures Lookup(t, ItemKey(items[i], ns)) == RestOf(s, items, ns, i)
    {
      if i < m {
        NextIsUnwritten(s, t, ks, vs, m, |items|, i);
      } else {
        assert Lookup(t, ks[i]) == vs[i];
      }
    }
  }

  /** Of what the namespace takes along, the manifest's objects are gone already. */
  lemma RestOutlives(s: Store, t: Store, items: seq<Item>, x: Target)
    requires IsManifest(items, x, x.ns) && RestIsThere(s, t, items, x.ns) && StopAt(s, items, x.ns, |items|) == 0
    ensures RestIsThere(s, WithoutNamespace(t - {PodConfigKey(x.ns)}, x.ns), items, x.ns)
  {
    forall i | 0 <= i < |items|
      ensures Lookup(WithoutNamespace(t - {PodConfigKey(x.ns)}, x.ns), ItemKey(items[i], x.ns)) == RestOf(s, items, x.ns, i)
    {
      assert IsManifestItem(items[i], x, x.ns) && !Stops(s, items[i], x.ns);
      assert Lookup(t, ItemKey(items[i], x.ns)) == RestOf(s, items, x.ns, i);
    }
  }

  lemma UninstallLeaves(x: Target, items: seq<Item>, s: Store, t: Store)
    requires IsManifest(items, x, x.ns) && IsUninstalled(s, t, items, x.ns)
    ensures IsLeftBehind(x, items, s, t)
  {
    RestIsLeft(x, items, s, t);
    NamespaceIsLeft(x, items, s, t);
  }

  lemma RestIsLeft(x: Target, items: seq<Item>, s: Store, t: Store)
    requires IsManifest(items, x, x.ns) && IsUninstalled(s, t, items, x.ns)
    ensures RestIsThere(s, t, items, x.ns)
  {
    var m := StopAt(s, items, x.ns, |items|);
    var mid :| IsSwept(s, mid, items, x.ns, m) && t == if m > 0 then mid else WithoutNamespace(mid - {PodConfigKey(x.ns)}, x.ns);
    SweptLeavesRest(s, mid, items, x.ns);
    if m == 0 {
      RestOutlives(s, mid, items, x);
    }
  }

  lemma NamespaceIsLeft(x: Target, items: seq<Item>, s: Store, t: Store)
    requires IsManifest(items, x, x.ns) && IsUninstalled(s, t, items, x.ns)
    ensures NamespaceKey(x.ns) in t <==> NamespaceKey(x.ns) in s && SomeStops(s, items, x.ns)
  {
    if NamespaceKey(x.ns) in s {
      NamespaceGoesExactly(s, t, items, x, x.ns);
    } else {
      NoNamespaceComes(x, items, s, t);
    }
  }

  lemma NoNamespaceComes(x: Target, items: seq<Item>, s: Store, t: Store)
    requires IsManifest(items, x, x.ns) && IsUninstalled(s, t, items, x.ns) && NamespaceKey(x.ns) !in s
    ensures NamespaceKey(x.ns) !in t
  {
    var m, k := StopAt(s, items, x.ns, |items|), NamespaceKey(x.ns);
    var mid :| IsSwept(s, mid, items, x.ns, m) && t == if m > 0 then mid else WithoutNamespace(mid - {PodConfigKey(x.ns)}, x.ns);
    NamespaceIsNoItem(items, x, x.ns);
    assert k !in ItemKeys(items, x.ns)[m..|items|];
    assert Lookup(mid, k) == Lookup(s, k);
  }

  lemma LeftBehindAgrees(x: Target, items: seq<Item>, s: Store, s': Store, t: Store)
    requires IsManifest(items, x, x.ns) && AgreesBut(x, s, s') && IsLeftBehind(x, items, s', t)
    ensures IsLeftBehind(x, items, s, t)
  {
    StopsAgree(x, items, s, s');
    assert NamespaceKey(x.ns) in s' <==> NamespaceKey(x.ns) in s by {
      SomeAgree(x, s, s');
    }
    forall i | 0 <= i < |items|
      ensures Stops(s', items[i], x.ns) <==> Stops(s, items[i], x.ns)
      ensures RestOf(s', items, x.ns, i) == RestOf(s, items, x.ns, i)
    {
      ItemAgrees(x, items, s, s', i);
    }
  }

  lemma ItemAgrees(x: Target, items: seq<Item>, s: Store, t: Store, i: nat)
    requires IsManifest(items, x, x.ns) && AgreesBut(x, s, t) && i < |items|
    ensures Lookup(t, ItemKey(items[i], x.ns)) == Lookup(s, ItemKey(items[i], x.ns))
    ensures Stops(t, items[i], x.ns) <==> Stops(s, items[i], x.ns)
    ensures Remainder(t, items[i], x.ns) == Remainder(s, items[i], x.ns)
  {
    assert IsManifestItem(items[i], x, x.ns);
  }

  /** Only the passwords go and the instance changes. */
  ghost predicate OnlyEnds(x: Target, s: Store, t: Store) {
    forall k :: k != x.passwords && k != x.instance ==> Lookup(t, k) == Lookup(s, k)
  }

  lemma EndsInSteps(x: Target, s: Store, t: Store)
    requires OnlyEnds(x, s - {x.passwords}, t)
    ensures OnlyEnds(x, s, t)
  {
  }

  /** From the start of a pass on: `s'` and `t` are the stores before and after the uninstallation. */
  lemma LeftByAPass(x: Target, items: seq<Item>, s: Store, s': Store, t: Store, u: Store)
    requires IsManifest(items, x, x.ns) && AgreesBut(x, s, s') && IsLeftBehind(x, items, s', t) && OnlyEnds(x, t, u)
    ensures IsLeftBehind(x, items, s, u)
  {
    LeftBehindAgrees(x, items, s, s', t);
    LeftBehindStays(x, items, s, t, u);
  }

  lemma LeftBehindStays(x: Target, items: seq<Item>, s: Store, t: Store, u: Store)
    requires IsManifest(items, x, x.ns) && IsLeftBehind(x, items, s, t) && OnlyEnds(x, t, u)
    ensures IsLeftBehind(x, items, s, u)
  {
    assert Lookup(u, NamespaceKey(x.ns)) == Lookup(t, NamespaceKey(x.ns));
    forall i | 0 <= i < |items|
      ensures Lookup(u, ItemKey(items[i], x.ns)) == Lookup(t, ItemKey(items[i], x.ns))
    {
      assert IsManifestItem(items[i], x, x.ns);
    }
  }

  predicate IsNewDatabase(p: Postgres) {
    p.IsPrimaryOrStandalone() && p.restore.None?
  }

  /** One more call, and whether it was the one that made the map or the job. */
  lemma LastCallMakes(c: Cluster, log: seq<Entry>, s: Store, k: Key)
    requires c.Valid() && log <= c.log && |c.log| == |log| + 1 && s == StateAt(c.initial, log, |log|)
    requires (k == c.x.initMap || k == c.x.initJob) && k !in s
    ensures k !in c.Latest().found && (k in c.objects <==> Makes(c.Latest(), k))
  {
    assert c.log[..|log|] == log;
    NobodyElseMakes(c.x, c.initial, c.log, |log|, k);
  }

  lemma MapSurvives(c: Cluster, log: seq<Entry>, s: Store)
    requires c.Valid() && !c.mode.teardown && log <= c.log && s == StateAt(c.initial, log, |log|) && c.x.initMap in s
    ensures c.x.initMap in c.objects
    ensures |c.log| == |log| + 1 ==> c.x.initMap in c.Latest().found
  {
    assert c.log[..|log|] == log;
    InitMapIsWrittenOnce(c.x, c.initial, c.log, |log|, |c.log|);
    if |c.log| == |log| + 1 {
      StepKeepsMap(c.x, c.initial, c.log, |log|);
    }
  }

  predicate HasNeither(x: Target, s: Store) {
    x.initMap !in s && x.initJob !in s
  }

  /** How many lookups come before the creation of the map: only a new database gets the global data. */
  function Lookups(p: Postgres): nat { if IsNewDatabase(p) then 1 else 0 }

  /** With call `m` creating the map: the job is made if and only if that call is answered, the database is
      new, and the second call after it is not refused. */
  predicate JobIsMade(p: Postgres, w: nat -> Turn, m: nat) {
    IsNewDatabase(p) && w(m).outcome == Done && w(m + 2).outcome != Refused
  }

  /** Call `m` of the run was to create the map, which was not there, and made it unless it was refused;
      if it was answered over a new database, the second call after it did the same to the job. */
  ghost predicate IsAttempt(x: Target, w: nat -> Turn, p: Postgres, log: seq<Entry>, m: nat) {
    && |log| == m + (if IsNewDatabase(p) && w(m).outcome == Done then 3 else 1)
    && log[m].mode.newDatabase == IsNewDatabase(p) && log[m].outcome == w(m).outcome
    && (Makes(log[m], x.initMap) <==> w(m).outcome != Refused)
    && (IsNewDatabase(p) && w(m).outcome == Done ==> (Makes(log[m + 2], x.initJob) <==> w(m + 2).outcome != Refused))
  }

  /** What an undisturbed pass leaves of the initdb map and job. */
  function InitDBEnsured(x: Target, s: Store, newDatabase: bool, global: Key, dummy: string): Store {
    if x.initMap in s then s
    else
      var s' := s[x.initMap := InitData(s, newDatabase, global, dummy)];
      if newDatabase then Ensured(s', x.initJob, Plain) else s'
  }

  /** The map's content: the global one's for a new database, if it can be read, else the dummy. */
  function InitData(s: Store, newDatabase: bool, global: Key, dummy: string): Object {
    Data(if newDatabase && global in s then EntriesOf(s[global]) else map[InitSQL := dummy])
  }

  /** A standby, a restore, and an instance without global data get the dummy; the others get the global data. */
  predicate HasInitData(x: Target, s: Store, t: Store, p: Postgres, global: Key, dummy: string) {
    x.initMap in t &&
    if (p.connection.Some? && !p.connection.value.primary) || p.restore.Some? || global !in s then
      t[x.initMap] == Data(map[InitSQL := dummy])
    else s[global].Data? ==> t[x.initMap] == s[global]
  }

  lemma InitDataIsRight(x: Target, s: Store, t: Store, p: Postgres, global: Key, dummy: string)
    requires x.initMap !in s && t == InitDBEnsured(x, s, IsNewDatabase(p), global, dummy)
    ensures HasInitData(x, s, t, p, global, dummy)
  {
  }

  lemma InitDBKeepsTheRest(x: Target, s: Store, newDatabase: bool, global: Key, dummy: string)
    ensures var t := InitDBEnsured(x, s, newDatabase, global, dummy);
            x.initMap in t && OnlyAdds(x, s, t)
  {
  }

  // ------------------------------------------------- when an undisturbed creation pass gets through

  /** What a pass reads from elsewhere: the instance's spec, the fresh random key, the port of the socket
      in the status, whether there is a free port for a new shared service, the names of the backup
      secrets of the instance and of the one it is restored from, which secrets hold a configuration
      that can be read, how the replication check ends, and where the global initdb map is. */
  datatype Input = Input(
    spec: Postgres,
    managed: bool,
    passphrase: string,
    port: int,
    forceSharedIP: bool,
    portFree: bool,
    backup: ObjectName,
    sourceBackup: ObjectName,
    readable: Object -> bool,
    checkFailed: bool,
    checkAgain: bool,
    initMap: Key,
    dummy: string)

  function BackupKey(x: Target, name: ObjectName): Key { Key(BackupSecret, x.instance.ns, name) }

  predicate HasBackup(x: Target, s: Store, name: ObjectName, readable: Object -> bool) {
    BackupKey(x, name) in s && readable(s[BackupKey(x, name)])
  }

  /** The operator runs or can be installed, and the global sidecars map is there after that. */
  predicate CanPrepare(x: Target, m: OperatorManager, s: Store, input: Input) {
    && HasBackup(x, s, input.backup, input.readable)
    && if HasOperatorPod(s, x.ns) then m.global in s
       else m.global in Prelude(s, x.ns, m.global, m.decode) && AllKnown(m.items)
  }

  ghost predicate AtMostOneZalando(x: Target, s: Store) {
    forall k, l :: k in s && l in s && IsZalando(x, k) && IsZalando(x, l) ==> k == l
  }

  function SourceKey(x: Target, source: string): Key { Key(PostgresCR, x.instance.ns, Text(source)) }

  /** A restore names its source, whose backup configuration can be read if the source itself can; and
      there is no second Zalando resource. */
  ghost predicate CanBuild(x: Target, s: Store, input: Input) {
    && AtMostOneZalando(x, s)
    && (input.spec.restore.Some? ==>
          && input.spec.restore.value != ""
          && (SourceKey(x, input.spec.restore.value) in s ==> HasBackup(x, s, input.sourceBackup, input.readable)))
  }

  /** A shared service that is yet to be made gets a port. */
  predicate CanBalance(x: Target, s: Store, input: Input) {
    input.spec.EnableSharedSvcLB(input.forceSharedIP) && x.sharedLB !in s ==> input.portFree
  }

  ghost predicate CanOpen(x: Target, m: OperatorManager, s: Store, input: Input) {
    CanPrepare(x, m, s, input) && CanBuild(x, s, input) && CanBalance(x, s, input)
  }

  /** How a pass ends that gets through to the policies. */
  function EndOfPass(input: Input): PassEnd {
    if input.port == 0 then Requeued else if input.checkFailed then Aborted else if input.checkAgain then Requeued else Finished
  }

  datatype PassEnd = Finished | Requeued | Aborted

  /** The operator runs or everything of its manifest is installed, and the exporter's service and the
      standby's egress policy are there. */
  ghost predicate IsPrepared(x: Target, m: OperatorManager, s: Store, input: Input) {
    && HasOperator(x, m, s) && x.exporter in s && (input.spec.connection.Some? ==> x.standbyEgress in s)
  }

  ghost predicate HasOperator(x: Target, m: OperatorManager, s: Store) {
    HasOperatorPod(s, x.ns) || forall i :: 0 <= i < |m.items| ==> ItemKey(m.items[i], x.ns) in s
  }

  predicate IsBuilt(x: Target, s: Store) {
    HasZalando(x, s) && x.initMap in s
  }

  /** Exactly the wanted load balancers. */
  predicate IsBalanced(x: Target, s: Store, input: Input) {
    && (x.sharedLB in s <==> input.spec.EnableSharedSvcLB(input.forceSharedIP))
    && (x.dedicatedLB in s <==> input.spec.EnableDedicatedSvcLB())
  }

  /** And the policies once there is a port to open. */
  predicate IsOpen(x: Target, s: Store, input: Input) {
    && IsBalanced(x, s, input)
    && (input.port != 0 ==> x.policy in s && (input.spec.connection.Some? ==> x.standbyIngress in s))
  }

  /** What a pass leaves that gets through. */
  ghost predicate IsComplete(x: Target, m: OperatorManager, s: Store, input: Input) {
    IsPrepared(x, m, s, input) && IsBuilt(x, s) && IsOpen(x, s, input)
  }

  /** Nothing goes, and no shared load balancer comes. */
  ghost predicate OnlyAdds(x: Target, s: Store, t: Store) {
    (forall k :: k in s ==> k in t) && (x.sharedLB in t ==> x.sharedLB in s)
  }

  /** Nothing goes but, maybe, the load balancers. */
  ghost predicate Keeps(x: Target, s: Store, t: Store) {
    forall k :: k in s && k != x.sharedLB && k != x.dedicatedLB ==> k in t
  }

  lemma OperatorStays(x: Target, m: OperatorManager, s: Store, t: Store)
    requires IsManifest(m.items, x, x.ns) && Keeps(x, s, t) && HasOperator(x, m, s)
    ensures HasOperator(x, m, t)
  {
    if HasOperatorPod(s, x.ns) {
      var k :| k in s && k.kind == OperatorPod && k.ns == x.ns;
      assert k in t;
    } else {
      forall i | 0 <= i < |m.items|
        ensures ItemKey(m.items[i], x.ns) in t
      {
        assert IsManifestItem(m.items[i], x, x.ns);
      }
    }
  }

  lemma PreparedStays(x: Target, m: OperatorManager, s: Store, t: Store, input: Input)
    requires IsManifest(m.items, x, x.ns) && Keeps(x, s, t) && IsPrepared(x, m, s, input)
    ensures IsPrepared(x, m, t, input)
  {
    OperatorStays(x, m, s, t);
  }

  lemma ZalandoStays(x: Target, s: Store, t: Store)
    requires Keeps(x, s, t) && HasZalando(x, s)
    ensures HasZalando(x, t)
  {
    var k :| k in s && IsZalando(x, k);
    assert k in t;
  }

  lemma BuiltStays(x: Target, s: Store, t: Store)
    requires Keeps(x, s, t) && IsBuilt(x, s)
    ensures IsBuilt(x, t)
  {
    ZalandoStays(x, s, t);
  }

  lemma InstalledIsThere(x: Target, m: OperatorManager, s: Store, t: Store)
    requires IsInstalled(s, t, m.items, x.ns, m.rule)
    ensures HasOperator(x, m, t)
  {
    forall i | 0 <= i < |m.items|
      ensures ItemKey(m.items[i], x.ns) in t
    {
      assert Lookup(t, ItemKeys(m.items, x.ns)[i]) == InstalledValues(s, m.items, x.ns, m.rule)[i];
    }
  }

  lemma PoliciesOpen(x: Target, s: Store, t: Store, input: Input)
    requires IsBalanced(x, s, input)
    requires var s' := s[x.policy := Plain]; t == if input.spec.connection.Some? then s'[x.standbyIngress := Plain] else s'
    ensures IsOpen(x, t, input) && Keeps(x, s, t)
  {
  }

  lemma ServicesArePrepared(x: Target, m: OperatorManager, s: Store, t: Store, input: Input)
    requires IsManifest(m.items, x, x.ns) && HasOperator(x, m, s)
    requires t == (if input.spec.connection.Some? then s[x.standbyEgress := Plain] else s)[x.exporter := Plain]
    ensures IsPrepared(x, m, t, input) && SameForLater(x, s, t)
  {
    OperatorStays(x, m, s, t);
    ServicesAgree(x, s, t, input.spec.connection.Some?);
  }

  lemma ServicesAgree(x: Target, s: Store, t: Store, egress: bool)
    requires t == (if egress then s[x.standbyEgress := Plain] else s)[x.exporter := Plain]
    ensures SameForLater(x, s, t)
  {
  }

  lemma ListedAreZalandos(x: Target, s: Store, keys: seq<Key>)
    requires forall k :: k in keys <==> (k in s && k.kind == Postgresql && k.ns == x.ns)
    requires forall i, j :: 0 <= i < j < |keys| ==> keys[i] != keys[j]
    ensures |keys| <= 1 <==> AtMostOneZalando(x, s)
    ensures |keys| >= 1 ==> IsZalando(x, keys[0]) && keys[0] in s
    ensures |keys| == 0 ==> x.zalando !in s
  {
    if |keys| >= 1 {
      assert keys[0] in keys;
    }
    if |keys| >= 2 {
      assert keys[1] in keys && keys[0] != keys[1];
    }
  }

  /** What a creation pass may fail at. */
  function Excused(x: Target, input: Input): Excuse {
    WhileCreating(!input.spec.EnableSharedSvcLB(input.forceSharedIP), !input.spec.EnableDedicatedSvcLB(),
                  SourceKey(x, if input.spec.restore.Some? then input.spec.restore.value else ""), input.initMap)
  }

  lemma ExcusedCalls(x: Target, input: Input)
    ensures var excuse := Excused(x, input);
            && MayFail(x, Read(input.initMap), excuse)
            && (input.spec.restore.Some? ==> MayFail(x, Read(SourceKey(x, input.spec.restore.value)), excuse))
            && (!input.spec.EnableSharedSvcLB(input.forceSharedIP) ==> MayFail(x, Delete(x.sharedLB), excuse))
            && (!input.spec.EnableDedicatedSvcLB() ==> MayFail(x, Delete(x.dedicatedLB), excuse))
  {
  }

  // What a pass has written that is not aborted, undisturbed or not.

  /** From entry `n` on there is an answered call that writes the object. */
  ghost predicate IsWritten(log: seq<Entry>, n: nat, k: Key) {
    exists j :: n <= j < |log| && Writes(log[j], k, Plain)
  }

  lemma LastWrites(c: Cluster, log: seq<Entry>, k: Key)
    requires |log| < |c.log| && Writes(c.Latest(), k, Plain)
    ensures IsWritten(c.log, |log|, k)
  {
    assert c.log[|c.log| - 1] == c.Latest();
  }

  lemma StillWritten(log: seq<Entry>, log': seq<Entry>, n: nat, n': nat, k: Key)
    requires log <= log' && n' <= n && IsWritten(log, n, k)
    ensures IsWritten(log', n', k)
  {
    var j :| n <= j < |log| && Writes(log[j], k, Plain);
    assert log'[j] == log[j];
  }

  lemma StillWrittenFor(e: Option<Error>, log: seq<Entry>, log': seq<Entry>, n: nat, n': nat, k: Key)
    requires log <= log' && n' <= n && (e.None? ==> IsWritten(log, n, k))
    ensures e.None? ==> IsWritten(log', n', k)
  {
    if e.None? {
      StillWritten(log, log', n, n', k);
    }
  }

  ghost predicate WritesServices(x: Target, log: seq<Entry>, n: nat, input: Input) {
    IsWritten(log, n, x.exporter) && (input.spec.connection.Some? ==> IsWritten(log, n, x.standbyEgress))
  }

  /** A call has seen a pod of the operator, or everything of its manifest has been installed. */
  ghost predicate FindsOperator(x: Target, m: OperatorManager, log: seq<Entry>, n: nat) {
    || (exists j :: n <= j < |log| && HasOperatorPod(log[j].after, x.ns))
    || ArePlaced(log, n, m.items, x.ns, m.rule, |m.items|)
  }

  lemma OperatorStillFound(x: Target, m: OperatorManager, log: seq<Entry>, log': seq<Entry>, n: nat, n': nat)
    requires log <= log' && n' <= n && FindsOperator(x, m, log, n)
    ensures FindsOperator(x, m, log', n')
  {
    if j :| n <= j < |log| && HasOperatorPod(log[j].after, x.ns) {
      assert log'[j] == log[j];
    } else {
      forall l | 0 <= l < |m.items|
        ensures IsPlaced(log', n', m.items[l], x.ns, m.rule)
      {
        StillPlaced(log, log', n, m.items[l], x.ns, m.rule);
        var j :| n <= j < |log'| && Places(log'[j], m.items[l], x.ns, m.rule);
      }
    }
  }

  ghost predicate WritesDatabase(x: Target, log: seq<Entry>, n: nat) {
    exists k :: IsZalando(x, k) && IsWritten(log, n, k)
  }

  ghost predicate WritesBalancers(x: Target, log: seq<Entry>, n: nat, input: Input) {
    && (input.spec.EnableSharedSvcLB(input.forceSharedIP) ==> IsWritten(log, n, x.sharedLB))
    && (input.spec.EnableDedicatedSvcLB() ==> IsWritten(log, n, x.dedicatedLB))
  }

  ghost predicate WritesPolicies(x: Target, log: seq<Entry>, n: nat, input: Input) {
    input.port != 0 ==>
      IsWritten(log, n, x.policy) && (input.spec.connection.Some? ==> IsWritten(log, n, x.standbyIngress))
  }

  ghost predicate WritesAccess(x: Target, log: seq<Entry>, n: nat, input: Input) {
    WritesBalancers(x, log, n, input) && WritesPolicies(x, log, n, input)
  }

  /** Everything that is wanted has been written from entry `n` on. */
  ghost predicate WritesAll(x: Target, log: seq<Entry>, n: nat, input: Input) {
    WritesServices(x, log, n, input) && WritesDatabase(x, log, n) && WritesAccess(x, log, n, input)
  }

  lemma ServicesStillWritten(x: Target, log: seq<Entry>, log': seq<Entry>, n: nat, n': nat, input: Input)
    requires log <= log' && n' <= n && WritesServices(x, log, n, input)
    ensures WritesServices(x, log', n', input)
  {
    StillWritten(log, log', n, n', x.exporter);
    if input.spec.connection.Some? {
      StillWritten(log, log', n, n', x.standbyEgress);
    }
  }

  lemma DatabaseStillWritten(x: Target, log: seq<Entry>, log': seq<Entry>, n: nat, n': nat)
    requires log <= log' && n' <= n && WritesDatabase(x, log, n)
    ensures WritesDatabase(x, log', n')
  {
    var k :| IsZalando(x, k) && IsWritten(log, n, k);
    StillWritten(log, log', n, n', k);
  }

  lemma BalancersStillWritten(x: Target, log: seq<Entry>, log': seq<Entry>, n: nat, n': nat, input: Input)
    requires log <= log' && n' <= n && WritesBalancers(x, log, n, input)
    ensures WritesBalancers(x, log', n', input)
  {
    if input.spec.EnableSharedSvcLB(input.forceSharedIP) {
      StillWritten(log, log', n, n', x.sharedLB);
    }
    if input.spec.EnableDedicatedSvcLB() {
      StillWritten(log, log', n, n', x.dedicatedLB);
    }
  }

  lemma PoliciesStillWritten(x: Target, log: seq<Entry>, log': seq<Entry>, n: nat, n': nat, input: Input)
    requires log <= log' && n' <= n && WritesPolicies(x, log, n, input)
    ensures WritesPolicies(x, log', n', input)
  {
    if input.port != 0 {
      StillWritten(log, log', n, n', x.policy);
      if input.spec.connection.Some? {
        StillWritten(log, log', n, n', x.standbyIngress);
      }
    }
  }

  lemma AccessStillWritten(x: Target, log: seq<Entry>, log': seq<Entry>, n: nat, n': nat, input: Input)
    requires log <= log' && n' <= n && WritesAccess(x, log, n, input)
    ensures WritesAccess(x, log', n', input)
  {
    BalancersStillWritten(x, log, log', n, n', input);
    PoliciesStillWritten(x, log, log', n, n', input);
  }

  /** From entry `n` on there are the calls of a successful uninstallation: all of them have succeeded, and
      the last one found a manifest object missing or deleted the namespace. */
  ghost predicate Uninstalls(log: seq<Entry>, n: nat, items: seq<Item>, ns: string) {
    exists i, j :: n <= i <= j < |log| && IsUninstallation(log, i, j, items, ns)
  }

  ghost predicate IsUninstallation(log: seq<Entry>, i: nat, j: nat, items: seq<Item>, ns: string)
    requires i <= j < |log|
  {
    AllSucceed(log, i, j + 1) && EndsUninstallation(log[j], items, ns)
  }

  lemma StillUninstalls(log: seq<Entry>, log': seq<Entry>, n: nat, n': nat, items: seq<Item>, ns: string)
    requires log <= log' && n' <= n && Uninstalls(log, n, items, ns)
    ensures Uninstalls(log', n', items, ns)
  {
    var i, j :| n <= i <= j < |log| && IsUninstallation(log, i, j, items, ns);
    assert log'[j] == log[j] && AllSucceed(log', i, j + 1);
    assert IsUninstallation(log', i, j, items, ns);
  }

  /** Every call from entry `n` on has succeeded, or was one that may fail. */
  ghost predicate IsSound(x: Target, log: seq<Entry>, n: nat, excuse: Excuse) {
    forall j :: n <= j < |log| ==> Succeeded(log[j].op, log[j].found, log[j].outcome) || MayFail(x, log[j].op, excuse)
  }

  /** `n` is where the present phase had begun. */
  lemma PhaseIsSound(c: Cluster, log: seq<Entry>)
    requires c.Valid() && log <= c.log && |log| < |c.log| && c.log[|log|].mode == c.mode
    requires TallyAt(log, |log|).faults == c.Faults()
    ensures IsSound(c.x, c.log, |log|, c.mode.excuse)
  {
    var n, m := |log|, |c.log| - 1;
    assert TallyAt(c.log, n) == TallyAt(log, n);
    SameTally(c.x, c.initial, c.log, n, |c.log|);
    PhasesGrow(c.x, c.initial, c.log, n, m);
    assert forall j :: n <= j <= m ==> c.log[j].mode == c.mode;
  }

  // What the first steps leave alone.

  ghost predicate AgreesOffInstance(x: Target, s: Store, t: Store) {
    && (x.instance in t <==> x.instance in s)
    && (forall k :: k != x.instance ==> Lookup(t, k) == Lookup(s, k))
  }

  /** What the later steps look at is as it was. */
  ghost predicate SameForLater(x: Target, s: Store, t: Store) {
    && (x.instance in t <==> x.instance in s) && (x.sharedLB in t <==> x.sharedLB in s)
    && (forall k: Key :: IsControlPlane(k.kind) && k != x.instance ==> Lookup(t, k) == Lookup(s, k))
    && (forall k :: IsZalando(x, k) ==> (k in t <==> k in s))
  }

  lemma LaterAgrees(x: Target, s: Store, t: Store, input: Input)
    requires SameForLater(x, s, t)
    ensures CanBuild(x, s, input) <==> CanBuild(x, t, input)
    ensures CanBalance(x, s, input) <==> CanBalance(x, t, input)
  {
    assert Lookup(t, BackupKey(x, input.sourceBackup)) == Lookup(s, BackupKey(x, input.sourceBackup));
    if input.spec.restore.Some? {
      var k := SourceKey(x, input.spec.restore.value);
      assert k != x.instance ==> Lookup(t, k) == Lookup(s, k);
    }
  }

  /** What an undisturbed pass leaves of the storage key. */
  function KeyEnsured(x: Target, s: Store, passphrase: string): Store {
    if x.encrypted then Ensured(s, x.storageSecret, StorageKey(passphrase, [StorageFinalizer])) else s
  }

  lemma KeyAgrees(x: Target, s: Store, passphrase: string)
    ensures var t := KeyEnsured(x, s, passphrase); SameForLater(x, s, t) && OnlyAdds(x, s, t)
  {
  }

  lemma OffInstanceAgrees(x: Target, m: OperatorManager, s: Store, t: Store, input: Input)
    requires AgreesOffInstance(x, s, t) && m.global.kind == ConfigMap
    ensures CanPrepare(x, m, s, input) <==> CanPrepare(x, m, t, input)
    ensures SameForLater(x, s, t)
  {
    assert Lookup(t, BackupKey(x, input.backup)) == Lookup(s, BackupKey(x, input.backup));
    PodsAgree(x, s, t);
    PreludeAgrees(x, m, s, t);
    forall k | IsZalando(x, k) || k == x.sharedLB
      ensures k in t <==> k in s
    {
      assert Lookup(t, k) == Lookup(s, k);
    }
  }

  lemma PreludeAgrees(x: Target, m: OperatorManager, s: Store, t: Store)
    requires AgreesOffInstance(x, s, t) && m.global.kind == ConfigMap
    ensures m.global in s <==> m.global in t
    ensures m.global in Prelude(s, x.ns, m.global, m.decode) <==> m.global in Prelude(t, x.ns, m.global, m.decode)
  {
    assert Lookup(t, m.global) == Lookup(s, m.global);
  }

  lemma PodsAgree(x: Target, s: Store, t: Store)
    requires AgreesOffInstance(x, s, t)
    ensures HasOperatorPod(s, x.ns) <==> HasOperatorPod(t, x.ns)
  {
    forall k: Key | k.kind == OperatorPod
      ensures k in t <==> k in s
    {
      assert Lookup(t, k) == Lookup(s, k);
    }
  }

  /** An installation makes or changes nothing that the later steps look at. */
  lemma InstallationIsFramed(x: Target, m: OperatorManager, s: Store, t: Store)
    requires IsManifest(m.items, x, x.ns) && m.global.kind == ConfigMap
    requires m.global in Prelude(s, x.ns, m.global, m.decode)
    requires IsInstalled(Prelude(s, x.ns, m.global, m.decode), t, m.items, x.ns, m.rule)
    ensures SameForLater(x, s, t) && m.global in t
  {
    var p := Prelude(s, x.ns, m.global, m.decode);
    var ks, vs := ItemKeys(m.items, x.ns), InstalledValues(p, m.items, x.ns, m.rule);
    forall k: Key | (IsControlPlane(k.kind) || IsZalando(x, k) || k == x.sharedLB)
      ensures Lookup(t, k) == Lookup(s, k)
    {
      NoItemIsOurs(m.items, x, k);
      assert k !in ks[0..|ks|];
      PreludeIsFramed(s, x.ns, m.global, m.decode, k);
    }
    if m.global in ks {
      var i :| 0 <= i < |ks| && ks[i] == m.global;
      assert Lookup(t, ks[i]) == vs[i];
    } else {
      assert m.global !in ks[0..|ks|];
      assert Lookup(t, m.global) == Lookup(p, m.global);
    }
    assert Lookup(t, x.instance) == Lookup(s, x.instance) && Lookup(t, x.sharedLB) == Lookup(s, x.sharedLB);
    forall k | IsZalando(x, k)
      ensures k in t <==> k in s
    {
      assert Lookup(t, k) == Lookup(s, k);
    }
  }

  lemma NoItemIsOurs(items: seq<Item>, x: Target, k: Key)
    requires IsManifest(items, x, x.ns) && (IsControlPlane(k.kind) || IsZalando(x, k) || k == x.sharedLB)
    ensures k !in ItemKeys(items, x.ns)
  {
    forall i | 0 <= i < |items|
      ensures ItemKeys(items, x.ns)[i] != k
    {
      assert IsManifestItem(items[i], x, x.ns);
    }
  }
}
