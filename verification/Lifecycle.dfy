/** The passes of one instance: creation and deletion, in the order of their steps, each of which may
    fail and end the pass; a later pass starts over. */
module Lifecycle {
  import opened Kube
  import opened Names
  import opened World
  import opened History
  import opened Operator
  import opened OperatorLaws
  import opened Passes

  method RemoveElem(ss: seq<Finalizer>, s: Finalizer) returns (out: seq<Finalizer>)
    ensures out == Removed(ss, s)
  {
    out := [];
    for i := 0 to |ss|
      invariant out == Removed(ss[..i], s)
    {
      assert ss[..i + 1][..i] == ss[..i];
      if ss[i] != s {
        out := out + [ss[i]];
      }
    }
    assert ss[..|ss|] == ss;
  }

  /** The secret with its data as it was, but without the storage finalizer. */
  method WithoutHold(secret: Object) returns (v: Object)
    ensures secret.StorageKey? ==> v == StorageKey(secret.passphrase, Removed(secret.finalizers, StorageFinalizer))
    ensures !secret.StorageKey? ==> v == secret
    ensures !IsHeld(v)
  {
    v := secret;
    if v.StorageKey? {
      var fs := RemoveElem(v.finalizers, StorageFinalizer);
      v := StorageKey(v.passphrase, fs);
    }
  }

  class PostgresReconciler {
    const cluster: Cluster
    const manager: OperatorManager

    constructor (cluster: Cluster, manager: OperatorManager)
      ensures this.cluster == cluster && this.manager == manager
    {
      this.cluster, this.manager := cluster, manager;
    }

    ghost predicate Valid()
      reads cluster
    {
      manager.cluster == cluster && manager.Valid(cluster.x.ns) && manager.global.kind == ConfigMap
    }

    /** The part of the invariant that a deletion pass adds. */
    ghost predicate TearingDown()
      reads cluster
    {
      cluster.Valid() && cluster.mode.teardown && cluster.mode.excuse.WhileDeleting?
    }

    /** A missing object is as good as deleted; what was gone stays gone. */
    method DeleteUnlessMissing(k: Key, ghost stage: nat) returns (e: Option<Error>)
      requires TearingDown() && IsDeletable(cluster.x, k) && GoneUpTo(cluster.x, cluster.objects, stage)
      modifies cluster
      ensures cluster.Progressed() && GoneUpTo(cluster.x, cluster.objects, stage)
      ensures e.None? || e == Some(NotFound) || MayFail(cluster.x, Delete(k), cluster.mode.excuse) ==> cluster.Faults() == old(cluster.Faults())
      ensures e.None? ==> k !in cluster.objects
      ensures old(cluster.Calm()) ==>
        && e.None? && cluster.objects == old(cluster.objects) - {k}
        && (IsTornDown(cluster.x, k) ==> AgreesBut(cluster.x, old(cluster.objects), cluster.objects))
    {
      e := cluster.Delete(k);
      if e == Some(NotFound) {
        e := None;
      }
      StageSurvives(cluster, old(cluster.log), old(cluster.objects), stage);
    }

    /** Failures to delete the standby policies do not matter. */
    method DeleteCWNP() returns (e: Option<Error>)
      requires cluster.Valid()
      modifies cluster
      ensures cluster.Progressed()
      ensures (e.None? || e == Some(NotFound)) && cluster.mode.excuse.WhileDeleting? ==> cluster.Faults() == old(cluster.Faults())
      ensures e.None? || e == Some(NotFound) ==> cluster.x.policy !in cluster.objects
      ensures old(cluster.Calm()) ==>
        && (e.None? || e == Some(NotFound)) && AgreesBut(cluster.x, old(cluster.objects), cluster.objects)
        && cluster.x.standbyIngress !in cluster.objects && cluster.x.standbyEgress !in cluster.objects
    {
      var ignored := DeletePolicy(cluster.x.standbyIngress);
      assert cluster.Progressed();
      ignored := DeletePolicy(cluster.x.standbyEgress);
      assert cluster.Progressed();
      e := DeletePolicy(cluster.x.policy);
    }

    method DeletePolicy(k: Key) returns (e: Option<Error>)
      requires cluster.Valid() && IsTornDown(cluster.x, k) && IsDeletable(cluster.x, k)
      modifies cluster
      ensures cluster.Progressed()
      ensures e.None? || e == Some(NotFound) || MayFail(cluster.x, Delete(k), cluster.mode.excuse) ==> cluster.Faults() == old(cluster.Faults())
      ensures e.None? || e == Some(NotFound) ==> k !in cluster.objects
      ensures old(cluster.Calm()) ==>
        (e.None? || e == Some(NotFound)) && k !in cluster.objects && AgreesBut(cluster.x, old(cluster.objects), cluster.objects)
    {
      e := cluster.Delete(k);
    }

    method DeleteZPostgresql(k: Key) returns (e: Option<Error>)
      requires TearingDown() && IsZalando(cluster.x, k)
      modifies cluster
      ensures cluster.Progressed() && NoNewcomers(cluster.x, old(cluster.objects), cluster.objects)
      ensures e.None? ==> cluster.Faults() == old(cluster.Faults())
      ensures e.None? ==> k !in cluster.objects
      ensures old(cluster.Calm()) ==> (e.None? <==> k in old(cluster.objects)) && cluster.objects == old(cluster.objects) - {k}
    {
      e := cluster.Delete(k);
      NoneReturns(cluster, old(cluster.log), old(cluster.objects));
    }

    /** Whatever the list shows is deleted; a resource that has gone in the meantime is an error. */
    method DeleteZPostgresqlByLabels() returns (e: Option<Error>)
      requires TearingDown()
      modifies cluster
      ensures cluster.Progressed()
      ensures e.None? ==> cluster.Faults() == old(cluster.Faults())
      ensures e.None? ==> !HasZalando(cluster.x, cluster.objects)
      ensures old(cluster.Calm()) ==> e.None? && AgreesBut(cluster.x, old(cluster.objects), cluster.objects)
    {
      var listed := cluster.List(Postgresql, cluster.x.ns);
      if listed.Err? {
        return Some(listed.error);
      }
      AllWhenListedAreGone(cluster.x, cluster.objects, listed.value);
      e := DeleteAll(listed.value);
    }

    method DeleteAll(keys: seq<Key>) returns (e: Option<Error>)
      requires TearingDown() && ListsZalandos(cluster.x, cluster.objects, keys)
      modifies cluster
      ensures cluster.Progressed()
      ensures e.None? ==> cluster.Faults() == old(cluster.Faults())
      ensures e.None? ==> AreDeleted(cluster.x, old(cluster.objects), cluster.objects, keys, |keys|)
      ensures old(cluster.Calm()) ==> e.None? && AreTheOnlyOnes(cluster.x, old(cluster.objects), cluster.objects, keys, |keys|)
    {
      ghost var s := cluster.objects;
      e := None;
      for i := 0 to |keys|
        invariant cluster.Progressed() && e.None? && cluster.Faults() == old(cluster.Faults())
        invariant AreDeleted(cluster.x, s, cluster.objects, keys, i)
        invariant old(cluster.Calm()) ==> AreTheOnlyOnes(cluster.x, s, cluster.objects, keys, i)
      {
        e := DeleteListed(keys, i, s);
        assert cluster.Progressed();
        if e.Some? {
          break;
        }
      }
    }

    method DeleteListed(keys: seq<Key>, n: nat, ghost s: Store) returns (e: Option<Error>)
      requires TearingDown() && ListsZalandos(cluster.x, s, keys) && n < |keys| && AreDeleted(cluster.x, s, cluster.objects, keys, n)
      modifies cluster
      ensures cluster.Progressed()
      ensures e.None? ==> cluster.Faults() == old(cluster.Faults())
      ensures e.None? ==> AreDeleted(cluster.x, s, cluster.objects, keys, n + 1)
      ensures old(cluster.Calm()) && AreTheOnlyOnes(cluster.x, s, old(cluster.objects), keys, n) ==>
        e.None? && AreTheOnlyOnes(cluster.x, s, cluster.objects, keys, n + 1)
    {
      e := DeleteZPostgresql(keys[n]);
      if e.None? {
        OneMoreIsDeleted(cluster.x, s, old(cluster.objects), cluster.objects, keys, n);
      }
    }

    method RemoveStorageEncryptionSecretFinalizer() returns (e: Option<Error>)
      requires TearingDown() && GoneUpTo(cluster.x, cluster.objects, 5)
      modifies cluster
      ensures cluster.Progressed() && GoneUpTo(cluster.x, cluster.objects, 5)
      ensures e.None? ==> cluster.Faults() == old(cluster.Faults())
      ensures e.None? ==> !KeyIsHeld(cluster.x, cluster.objects)
      ensures old(cluster.Calm()) ==> e.None? && AgreesBut(cluster.x, old(cluster.objects), cluster.objects)
    {
      var got := cluster.Get(cluster.x.storageSecret);
      StageSurvives(cluster, old(cluster.log), old(cluster.objects), 5);
      if got.Ok? {
        e := ReleaseSecret(got.value);
        StageSurvives(cluster, old(cluster.log), old(cluster.objects), 5);
      } else {
        e := if got.error == NotFound then None else Some(got.error);
      }
    }

    method ReleaseSecret(secret: Object) returns (e: Option<Error>)
      requires TearingDown() && !HasZalando(cluster.x, cluster.objects)
      requires cluster.x.storageSecret in cluster.objects && cluster.objects[cluster.x.storageSecret] == secret
      modifies cluster
      ensures cluster.Progressed()
      ensures e.None? ==> cluster.Faults() == old(cluster.Faults())
      ensures e.None? ==> !KeyIsHeld(cluster.x, cluster.objects)
      ensures old(cluster.Calm()) ==> e.None? && AgreesBut(cluster.x, old(cluster.objects), cluster.objects)
    {
      var v := WithoutHold(secret);
      TouchingAgrees(cluster.x, cluster.objects, cluster.x.storageSecret, v);
      e := cluster.Update(cluster.x.storageSecret, v);
      assert e.None? ==> cluster.objects[cluster.x.storageSecret] == v;
    }

    method DeleteServices() returns (e: Option<Error>)
      requires TearingDown() && GoneUpTo(cluster.x, cluster.objects, 1)
      modifies cluster
      ensures cluster.Progressed()
      ensures e.None? ==> cluster.Faults() == old(cluster.Faults())
      ensures e.None? ==> GoneUpTo(cluster.x, cluster.objects, 4)
      ensures old(cluster.Calm()) ==> e.None? && AgreesBut(cluster.x, old(cluster.objects), cluster.objects)
    {
      e := DeleteUnlessMissing(cluster.x.sharedLB, 1);
      if e.None? {
        e := DeleteUnlessMissing(cluster.x.dedicatedLB, 2);
      }
      assert cluster.Progressed();
      if e.None? {
        e := DeleteUnlessMissing(cluster.x.exporter, 3);
      }
    }

    /** The steps before the operator's. */
    method DeleteOwnObjects() returns (e: Option<Error>)
      requires TearingDown()
      modifies cluster
      ensures cluster.Progressed()
      ensures e.None? ==> cluster.Faults() == old(cluster.Faults())
      ensures e.None? ==> GoneUpTo(cluster.x, cluster.objects, 5)
      ensures old(cluster.Calm()) ==>
        e.None? && AgreesBut(cluster.x, old(cluster.objects), cluster.objects) && IsTidy(cluster.x, cluster.objects)
    {
      e := DeleteAccess();
      if e.None? {
        ghost var s, t := old(cluster.objects), cluster.objects;
        e := DeleteDatabase();
        if old(cluster.Calm()) {
          AgreesButIsTransitive(cluster.x, s, t, cluster.objects);
        }
      }
    }

    method DeleteAccess() returns (e: Option<Error>)
      requires TearingDown()
      modifies cluster
      ensures cluster.Progressed()
      ensures e.None? ==> cluster.Faults() == old(cluster.Faults())
      ensures e.None? ==> GoneUpTo(cluster.x, cluster.objects, 4)
      ensures old(cluster.Calm()) ==>
        && e.None? && AgreesBut(cluster.x, old(cluster.objects), cluster.objects)
        && cluster.x.standbyIngress !in cluster.objects && cluster.x.standbyEgress !in cluster.objects
    {
      e := DeleteCWNP();
      assert cluster.Progressed();
      if e.None? || e == Some(NotFound) {
        e := DeleteServices();
      }
    }

    /** The Zalando resources, the network policy (failing to delete it does not matter), and the hold on
        the storage key. */
    method DeleteDatabase() returns (e: Option<Error>)
      requires TearingDown() && GoneUpTo(cluster.x, cluster.objects, 4)
      modifies cluster
      ensures cluster.Progressed()
      ensures e.None? ==> cluster.Faults() == old(cluster.Faults())
      ensures e.None? ==> GoneUpTo(cluster.x, cluster.objects, 5) && !KeyIsHeld(cluster.x, cluster.objects)
      ensures old(cluster.Calm()) ==>
        e.None? && AgreesBut(cluster.x, old(cluster.objects), cluster.objects) && cluster.x.netPol !in cluster.objects
    {
      e := DeleteZPostgresqlByLabels();
      StageSurvives(cluster, old(cluster.log), old(cluster.objects), 4);
      if e.None? {
        assert MayFail(cluster.x, Delete(cluster.x.netPol), cluster.mode.excuse);
        var ignored := DeleteUnlessMissing(cluster.x.netPol, 5);
        assert cluster.Progressed();
        e := RemoveStorageEncryptionSecretFinalizer();
      }
    }

    /** The last step: the instance loses its finalizer. */
    method RemoveFinalizer(instance: Object) returns (e: Option<Error>)
      requires TearingDown() && GoneUpTo(cluster.x, cluster.objects, ALL_STAGES)
      requires instance.Instance? && HasInstance(cluster.x, cluster.objects)
      modifies cluster
      ensures cluster.Progressed()
      ensures e.None? ==> cluster.Faults() == old(cluster.Faults())
      ensures e.None? ==> !Finalized(cluster.x, cluster.objects)
      ensures old(cluster.Calm()) ==>
        && e.None? && OnlyEnds(cluster.x, old(cluster.objects), cluster.objects) && HasInstance(cluster.x, cluster.objects)
        && cluster.objects[cluster.x.instance].finalizers == Removed(instance.finalizers, PostgresFinalizer)
    {
      var fs := RemoveElem(instance.finalizers, PostgresFinalizer);
      FinalizerMayGo(cluster.x, cluster.objects, Instance(instance.deleting, fs), cluster.mode);
      e := cluster.Update(cluster.x.instance, Instance(instance.deleting, fs));
    }

    method RemoveOperator() returns (end: PassEnd)
      requires Valid() && TearingDown() && GoneUpTo(cluster.x, cluster.objects, 5)
      modifies cluster
      ensures cluster.Progressed()
      ensures end.Finished? ==> Uninstalls(cluster.log, |old(cluster.log)|, manager.items, cluster.x.ns)
      ensures end.Finished? ==> cluster.Faults() == old(cluster.Faults())
      ensures end.Finished? ==> GoneUpTo(cluster.x, cluster.objects, 6)
      ensures old(cluster.Calm()) && GoodBindings(cluster.initial) ==>
        && (end.Finished? <==> CanFinish(cluster.x, manager.items, old(cluster.objects)))
        && (end.Finished? ==> IsLeftBehind(cluster.x, manager.items, old(cluster.objects), cluster.objects))
    {
      var deletable := manager.IsOperatorDeletable(cluster.x.ns, cluster.x.clusterService);
      StageSurvives(cluster, old(cluster.log), old(cluster.objects), 5);
      if deletable.Err? {
        return Aborted;
      }
      if !deletable.value {
        return Requeued;
      }
      ghost var log := cluster.log;
      end := UninstallTheOperator();
      if end.Finished? {
        StillUninstalls(cluster.log, cluster.log, |log|, |old(cluster.log)|, manager.items, cluster.x.ns);
      }
    }

    method UninstallTheOperator() returns (end: PassEnd)
      requires Valid() && TearingDown() && GoneUpTo(cluster.x, cluster.objects, 6)
      modifies cluster
      ensures cluster.Progressed() && GoneUpTo(cluster.x, cluster.objects, 6) && !end.Requeued?
      ensures end.Finished? ==> Uninstalls(cluster.log, |old(cluster.log)|, manager.items, cluster.x.ns)
      ensures end.Finished? ==> cluster.Faults() == old(cluster.Faults())
      ensures old(cluster.Calm()) && GoodBindings(cluster.initial) ==>
        && (end.Finished? <==> Succeeds(old(cluster.objects), manager.items, cluster.x.ns))
        && IsLeftBehind(cluster.x, manager.items, old(cluster.objects), cluster.objects)
    {
      var e, panicked := manager.UninstallOperator(cluster.x.ns);
      StageSurvives(cluster, old(cluster.log), old(cluster.objects), 6);
      if e.None? {
        assert IsUninstallation(cluster.log, |old(cluster.log)|, |cluster.log| - 1, manager.items, cluster.x.ns);
      }
      if old(cluster.Calm()) && GoodBindings(cluster.initial) {
        UninstallLeaves(cluster.x, manager.items, old(cluster.objects), cluster.objects);
      }
      end := if e.None? then Finished else Aborted;
    }

    /** The status says that the instance is going; then everything goes that needs no operator. */
    method BeginDeletion(instance: Object) returns (e: Option<Error>)
      requires TearingDown() && instance.Instance?
      requires cluster.x.instance in cluster.objects && cluster.objects[cluster.x.instance] == instance
      modifies cluster
      ensures cluster.Progressed()
      ensures |cluster.log| > |old(cluster.log)| && cluster.log[|old(cluster.log)|].mode == cluster.mode
      ensures e.None? ==> cluster.Faults() == old(cluster.Faults())
      ensures e.None? ==> GoneUpTo(cluster.x, cluster.objects, 5)
      ensures old(cluster.Calm()) ==>
        e.None? && AgreesBut(cluster.x, old(cluster.objects), cluster.objects) && IsTidy(cluster.x, cluster.objects)
    {
      e := cluster.Update(cluster.x.instance, instance);
      assert cluster.Progressed();
      assert old(cluster.Calm()) ==> cluster.objects == old(cluster.objects);
      if e.None? {
        e := DeleteOwnObjects();
      }
    }

    method FinishDeletion(instance: Object) returns (e: Option<Error>)
      requires TearingDown() && GoneUpTo(cluster.x, cluster.objects, 6)
      requires instance.Instance? && HasInstance(cluster.x, cluster.objects)
      modifies cluster
      ensures cluster.Progressed()
      ensures e.None? ==> cluster.Faults() == old(cluster.Faults())
      ensures e.None? ==> !Finalized(cluster.x, cluster.objects)
      ensures old(cluster.Calm()) ==> e.None? && OnlyEnds(cluster.x, old(cluster.objects), cluster.objects)
    {
      e := DeleteUnlessMissing(cluster.x.passwords, 6);
      if e.None? {
        InstanceSurvives(cluster, old(cluster.log), old(cluster.objects));
        assert cluster.Progressed();
        e := RemoveFinalizer(instance);
        if old(cluster.Calm()) {
          EndsInSteps(cluster.x, old(cluster.objects), cluster.objects);
        }
      }
    }

    /** A pass over an instance that is being deleted. */
    method DeletionPass(instance: Object) returns (end: PassEnd)
      requires Valid() && instance.Instance? && instance.deleting
      requires cluster.x.instance in cluster.objects && cluster.objects[cluster.x.instance] == instance
      modifies cluster
      ensures cluster.Valid() && old(cluster.log) <= cluster.log
      ensures end.Finished? ==> !Finalized(cluster.x, cluster.objects)
      ensures end.Finished? ==> Uninstalls(cluster.log, |old(cluster.log)|, manager.items, cluster.x.ns)
      ensures end.Finished? ==> IsSound(cluster.x, cluster.log, |old(cluster.log)|, WhileDeleting)
      ensures old(cluster.Calm()) && GoodBindings(cluster.initial) ==>
        && (end.Finished? <==> CanFinish(cluster.x, manager.items, old(cluster.objects)))
        && (end.Finished? ==> IsLeftBehind(cluster.x, manager.items, old(cluster.objects), cluster.objects))
    {
      cluster.BeginTeardown();
      var e := BeginDeletion(instance);
      if e.Some? {
        return Aborted;
      }
      ghost var s, log := cluster.objects, cluster.log;
      if old(cluster.Calm()) {
        CanFinishAgrees(cluster.x, manager.items, old(cluster.objects), s);
      }
      end := RemoveOperator();
      if end == Finished {
        ghost var t, log' := cluster.objects, cluster.log;
        InstanceSurvives(cluster, old(cluster.log), old(cluster.objects));
        e := FinishDeletion(instance);
        end := if e.None? then Finished else Aborted;
        if e.None? {
          DeletionIsSound(old(cluster.log), log, log');
        }
        if old(cluster.Calm()) && GoodBindings(cluster.initial) {
          LeftByAPass(cluster.x, manager.items, old(cluster.objects), s, t, cluster.objects);
        }
      }
    }

    /** `log0` is the history when the phase began, and the uninstallation is between the other two. */
    lemma DeletionIsSound(log0: seq<Entry>, log1: seq<Entry>, log2: seq<Entry>)
      requires TearingDown() && log0 <= log1 <= log2 <= cluster.log && Uninstalls(log2, |log1|, manager.items, cluster.x.ns)
      requires |log0| < |cluster.log| && cluster.log[|log0|].mode == cluster.mode && TallyAt(log0, |log0|).faults == cluster.Faults()
      ensures Uninstalls(cluster.log, |log0|, manager.items, cluster.x.ns)
      ensures IsSound(cluster.x, cluster.log, |log0|, WhileDeleting)
    {
      StillUninstalls(log2, cluster.log, |log1|, |log0|, manager.items, cluster.x.ns);
      PhaseIsSound(cluster, log0);
    }

    // ----------------------------------------------- creation

    /** A creation pass is under way; nobody else ever made a storage secret without the finalizer. */
    ghost predicate Creating()
      reads cluster
    {
      cluster.Valid() && !cluster.mode.teardown && KeyHeldIfPresent(cluster.x, cluster.initial)
    }

    method AddFinalizer(instance: Object) returns (e: Option<Error>)
      requires Creating() && instance.Instance?
      requires cluster.x.instance in cluster.objects && cluster.objects[cluster.x.instance] == instance
      modifies cluster
      ensures cluster.Progressed()
      ensures e.None? ==> cluster.Faults() == old(cluster.Faults())
      ensures e.None? ==> Finalized(cluster.x, cluster.objects)
      ensures old(cluster.Calm()) ==>
        && e.None? && AgreesOffInstance(cluster.x, old(cluster.objects), cluster.objects)
        && var fs := if PostgresFinalizer in instance.finalizers then [] else [PostgresFinalizer];
        && cluster.objects[cluster.x.instance] == Instance(instance.deleting, instance.finalizers + fs)
    {
      if PostgresFinalizer in instance.finalizers {
        assert instance.finalizers + [] == instance.finalizers;
        return None;
      }
      var v := Instance(instance.deleting, instance.finalizers + [PostgresFinalizer]);
      e := cluster.Update(cluster.x.instance, v);
    }

    method GetBackupConfig(name: ObjectName, readable: Object -> bool) returns (e: Option<Error>)
      requires cluster.Valid()
      modifies cluster
      ensures cluster.Progressed()
      ensures e.None? ==> cluster.Faults() == old(cluster.Faults()) && HasBackup(cluster.x, cluster.objects, name, readable)
      ensures old(cluster.Calm()) ==>
        cluster.objects == old(cluster.objects) && (e.None? <==> HasBackup(cluster.x, cluster.objects, name, readable))
    {
      var got := cluster.Get(BackupKey(cluster.x, name));
      e := if got.Err? then Some(got.error) else if readable(got.value) then None else Some(Failed);
    }

    method EnsureZalandoDependencies() returns (e: Option<Error>)
      requires Valid()
      modifies cluster
      ensures cluster.Progressed()
      ensures e.None? ==> FindsOperator(cluster.x, manager, cluster.log, |old(cluster.log)|)
      ensures e.None? ==> cluster.Faults() == old(cluster.Faults())
      ensures old(cluster.Calm()) ==>
        if HasOperatorPod(old(cluster.objects), cluster.x.ns) then e.None? && cluster.objects == old(cluster.objects)
        else
          && var p := Prelude(old(cluster.objects), cluster.x.ns, manager.global, manager.decode);
          && (e.None? <==> manager.global in p && AllKnown(manager.items))
          && (e.None? ==> IsInstalled(p, cluster.objects, manager.items, cluster.x.ns, manager.rule))
    {
      var installed := manager.IsOperatorInstalled(cluster.x.ns);
      if installed.Err? {
        return Some(installed.error);
      }
      e := None;
      assert installed.value ==> HasOperatorPod(cluster.log[|cluster.log| - 1].after, cluster.x.ns);
      if !installed.value {
        ghost var log := cluster.log;
        e := manager.InstallOrUpdateOperator(cluster.x.ns);
        if e.None? {
          assert FindsOperator(cluster.x, manager, cluster.log, |log|);
          OperatorStillFound(cluster.x, manager, cluster.log, cluster.log, |log|, |old(cluster.log)|);
        }
      }
    }

    /** Looks the object up, then creates or updates it. With `anyError`, any failure to read is taken
        for absence. */
    method CreateOrUpdate(k: Key, anyError: bool) returns (e: Option<Error>)
      requires Creating() && IsOrdinary(cluster.x, k) && (anyError ==> IsOptional(k))
      modifies cluster
      ensures cluster.Progressed()
      ensures e.None? ==> k in cluster.objects && cluster.Faults() == old(cluster.Faults())
      ensures e.None? ==> IsWritten(cluster.log, |old(cluster.log)|, k)
      ensures old(cluster.Calm()) ==> e.None? && cluster.objects == old(cluster.objects)[k := Plain]
    {
      var got := cluster.Get(k);
      assert cluster.Progressed();
      if got.Ok? || got.error == NotFound || anyError {
        ghost var n := |cluster.log|;
        e := Write(k, got.Ok?);
        StillWrittenFor(e, cluster.log, cluster.log, n, |old(cluster.log)|, k);
      } else {
        e := Some(got.error);
      }
    }

    method Write(k: Key, found: bool) returns (e: Option<Error>)
      requires Creating() && IsOrdinary(cluster.x, k)
      modifies cluster
      ensures cluster.Progressed()
      ensures e.None? ==> k in cluster.objects && cluster.Faults() == old(cluster.Faults())
      ensures e.None? ==> IsWritten(cluster.log, |old(cluster.log)|, k)
      ensures old(cluster.Calm()) && (found <==> k in old(cluster.objects)) ==>
        e.None? && cluster.objects == old(cluster.objects)[k := Plain]
    {
      OrdinaryMayBeWritten(cluster.x, cluster.log, cluster.objects, k, cluster.mode);
      if found {
        e := cluster.Update(k, Plain);
      } else {
        e := cluster.Create(k, Plain);
      }
      if e.None? {
        LastWrites(cluster, old(cluster.log), k);
      }
    }

    /** Unless that is switched off, the key is generated once, and written together with the finalizer
        that holds it. */
    method EnsureStorageEncryptionSecret(passphrase: string) returns (e: Option<Error>)
      requires Creating()
      modifies cluster
      ensures cluster.Progressed()
      ensures e.None? ==> cluster.Faults() == old(cluster.Faults())
      ensures e.None? ==> KeyIsReady(cluster.x, cluster.objects)
      ensures old(cluster.Calm()) ==>
        e.None? && cluster.objects == KeyEnsured(cluster.x, old(cluster.objects), passphrase)
      ensures |cluster.log| > |old(cluster.log)| && Makes(cluster.Latest(), cluster.x.storageSecret) ==>
        cluster.x.encrypted && cluster.Latest().op == Create(cluster.x.storageSecret, StorageKey(passphrase, [StorageFinalizer]))
      ensures old(cluster.Calm()) && cluster.x.encrypted && cluster.x.storageSecret !in old(cluster.objects) ==>
        |cluster.log| > |old(cluster.log)| && Makes(cluster.Latest(), cluster.x.storageSecret)
    {
      if !cluster.x.encrypted {
        return None;
      }
      var got := cluster.Get(cluster.x.storageSecret);
      if got.Ok? {
        HeldUntilTeardown(cluster.x, cluster.initial, cluster.log, |cluster.log|);
        return None;
      }
      if got.error != NotFound {
        return Some(got.error);
      }
      var v := StorageKey(passphrase, [StorageFinalizer]);
      e := cluster.Create(cluster.x.storageSecret, v);
    }

    /** A restore needs the name of its source, and the source's backup configuration if the source can be
        read; if it can not, that does not matter. */
    method CreateOrUpdateZalandoPostgresql(input: Input) returns (e: Option<Error>)
      requires cluster.mode.excuse == Excused(cluster.x, input)
      requires Creating() && KeyIsReady(cluster.x, cluster.objects)
      modifies cluster
      ensures cluster.Progressed()
      ensures e.None? ==> WritesDatabase(cluster.x, cluster.log, |old(cluster.log)|)
      ensures e.None? ==> cluster.Faults() == old(cluster.Faults())
      ensures input.spec.restore == Some("") ==> e.Some? && cluster.log == old(cluster.log)
      ensures old(cluster.Calm()) ==>
        && (e.None? <==> CanBuild(cluster.x, old(cluster.objects), input))
        && (e.None? ==> HasZalando(cluster.x, cluster.objects)) && OnlyAdds(cluster.x, old(cluster.objects), cluster.objects)
    {
      e := None;
      if input.spec.restore.Some? {
        ExcusedCalls(cluster.x, input);
        e := ReadSource(input.spec.restore.value, input);
        KeySurvives(cluster, old(cluster.log), old(cluster.objects));
      }
      assert cluster.Progressed();
      if e.None? {
        ghost var n := |cluster.log|;
        e := WriteZalandoPostgresql();
        if e.None? {
          DatabaseStillWritten(cluster.x, cluster.log, cluster.log, n, |old(cluster.log)|);
        }
      }
    }

    method ReadSource(source: string, input: Input) returns (e: Option<Error>)
      requires cluster.Valid()
      modifies cluster
      ensures cluster.Progressed()
      ensures e.None? && MayFail(cluster.x, Read(SourceKey(cluster.x, source)), cluster.mode.excuse) ==> cluster.Faults() == old(cluster.Faults())
      ensures source == "" ==> e.Some? && cluster.log == old(cluster.log)
      ensures old(cluster.Calm()) ==>
        && cluster.objects == old(cluster.objects)
        && (e.None? <==> source != "" && (SourceKey(cluster.x, source) in cluster.objects ==>
                                            HasBackup(cluster.x, cluster.objects, input.sourceBackup, input.readable)))
    {
      if source == "" {
        return Some(Failed);
      }
      var got := cluster.Get(SourceKey(cluster.x, source));
      e := None;
      if got.Ok? {
        e := GetBackupConfig(input.sourceBackup, input.readable);
      }
    }

    /** More than one resource in the namespace is an error. */
    method WriteZalandoPostgresql() returns (e: Option<Error>)
      requires Creating() && KeyIsReady(cluster.x, cluster.objects)
      modifies cluster
      ensures cluster.Progressed()
      ensures e.None? ==> WritesDatabase(cluster.x, cluster.log, |old(cluster.log)|)
      ensures e.None? ==> cluster.Faults() == old(cluster.Faults())
      ensures old(cluster.Calm()) ==>
        && (e.None? <==> AtMostOneZalando(cluster.x, old(cluster.objects)))
        && (e.None? ==> HasZalando(cluster.x, cluster.objects)) && OnlyAdds(cluster.x, old(cluster.objects), cluster.objects)
    {
      var listed := cluster.List(Postgresql, cluster.x.ns);
      if listed.Err? {
        return Some(listed.error);
      }
      ListedAreZalandos(cluster.x, cluster.objects, listed.value);
      if |listed.value| > 1 {
        return Some(Failed);
      }
      if |listed.value| == 1 {
        e := cluster.Update(listed.value[0], Plain);
        if e.None? {
          LastWrites(cluster, old(cluster.log), listed.value[0]);
        }
      } else {
        KeySurvives(cluster, old(cluster.log), old(cluster.objects));
        ghost var n := |cluster.log|;
        e := CreateZalandoPostgresql();
        StillWrittenFor(e, cluster.log, cluster.log, n, |old(cluster.log)|, cluster.x.zalando);
      }
    }

    method CreateZalandoPostgresql() returns (e: Option<Error>)
      requires Creating() && KeyIsReady(cluster.x, cluster.objects)
      modifies cluster
      ensures cluster.Progressed()
      ensures e.None? ==> IsWritten(cluster.log, |old(cluster.log)|, cluster.x.zalando)
      ensures e.None? ==> cluster.Faults() == old(cluster.Faults())
      ensures e.None? ==> cluster.x.zalando in cluster.objects
      ensures old(cluster.Calm()) && cluster.x.zalando !in old(cluster.objects) ==>
        e.None? && cluster.objects == old(cluster.objects)[cluster.x.zalando := Plain]
    {
      e := cluster.Create(cluster.x.zalando, Plain);
      if e.None? {
        LastWrites(cluster, old(cluster.log), cluster.x.zalando);
      }
    }

    // ----------------------------------------------- the initdb job

    /** The map is there unless call `m` was refused, the job exactly if it was made, and an error is
        reported exactly if one of the two creations was not answered. */
    ghost predicate IsAttempted(p: Postgres, m: nat, e: Option<Error>)
      reads cluster
    {
      && IsAttempt(cluster.x, cluster.w, p, cluster.log, m)
      && (cluster.x.initMap in cluster.objects <==> cluster.w(m).outcome != Refused)
      && (cluster.x.initJob in cluster.objects <==> JobIsMade(p, cluster.w, m))
      && (e.None? <==> cluster.w(m).outcome == Done && (IsNewDatabase(p) ==> cluster.w(m + 2).outcome == Done))
    }

    /** The initdb map is written once. The job is made by the pass that wrote the map, and only over a new
        database; if that pass fails in between, the job is never made. */
    method EnsureInitDBJob(p: Postgres, global: Key, dummy: string) returns (e: Option<Error>)
      requires Creating() && cluster.mode.newDatabase == IsNewDatabase(p)
      modifies cluster
      ensures cluster.Progressed()
      ensures e.None? && MayFail(cluster.x, Read(global), cluster.mode.excuse) ==> cluster.Faults() == old(cluster.Faults())
      ensures HasNeither(cluster.x, old(cluster.objects)) ==> IsAttempted(p, old(cluster.clock) + 1 + Lookups(p), e)
      ensures cluster.x.initMap in old(cluster.objects) ==>
        && cluster.x.initMap in cluster.objects && (e.None? <==> cluster.w(old(cluster.clock)).outcome == Done)
        && (cluster.x.initJob in cluster.objects ==> cluster.x.initJob in old(cluster.objects))
      ensures old(cluster.Calm()) ==>
        e.None? && cluster.objects == InitDBEnsured(cluster.x, old(cluster.objects), IsNewDatabase(p), global, dummy)
      ensures old(cluster.Calm()) && cluster.x.initMap !in old(cluster.objects) ==>
        HasInitData(cluster.x, old(cluster.objects), cluster.objects, p, global, dummy)
    {
      ghost var m := cluster.clock + 1 + Lookups(p);
      var got := cluster.Get(cluster.x.initMap);
      StayAway(old(cluster.log), old(cluster.objects));
      assert got.Err? ==> got.error == NotFound || cluster.w(old(cluster.clock)).outcome != Done;
      e := None;
      if got.Err? {
        e := CreateInitDB(p, global, dummy, m);
      }
      if old(cluster.Calm()) && cluster.x.initMap !in old(cluster.objects) {
        InitDataIsRight(cluster.x, old(cluster.objects), cluster.objects, p, global, dummy);
      }
    }

    /** A call that creates neither of the two leaves the map where it is and brings none of them. */
    lemma StayAway(log: seq<Entry>, s: Store)
      requires Creating() && log <= cluster.log && |cluster.log| == |log| + 1 && s == StateAt(cluster.initial, log, |log|)
      requires !Makes(cluster.Latest(), cluster.x.initMap) && !Makes(cluster.Latest(), cluster.x.initJob)
      ensures cluster.x.initMap in cluster.objects <==> cluster.x.initMap in s
      ensures cluster.x.initJob in cluster.objects ==> cluster.x.initJob in s
    {
      if cluster.x.initMap in s {
        MapSurvives(cluster, log, s);
      } else {
        LastCallMakes(cluster, log, s, cluster.x.initMap);
      }
      if cluster.x.initJob !in s {
        LastCallMakes(cluster, log, s, cluster.x.initJob);
      }
    }

    /** Call `m` of the run will be the creation of the map. */
    method CreateInitDB(p: Postgres, global: Key, dummy: string, ghost m: nat) returns (e: Option<Error>)
      requires Creating() && cluster.mode.newDatabase == IsNewDatabase(p) && m == cluster.clock + Lookups(p)
      modifies cluster
      ensures cluster.Progressed()
      ensures e.None? && MayFail(cluster.x, Read(global), cluster.mode.excuse) ==> cluster.Faults() == old(cluster.Faults())
      ensures HasNeither(cluster.x, old(cluster.objects)) ==> IsAttempted(p, m, e)
      ensures cluster.x.initMap in old(cluster.objects) ==>
        && e.Some? && cluster.x.initMap in cluster.objects
        && (cluster.x.initJob in cluster.objects ==> cluster.x.initJob in old(cluster.objects))
      ensures old(cluster.Calm()) && cluster.x.initMap !in old(cluster.objects) ==>
        e.None? && cluster.objects == InitDBEnsured(cluster.x, old(cluster.objects), IsNewDatabase(p), global, dummy)
    {
      var data := ChooseInitData(p, global, dummy);
      e := CreateInitMap(data);
      assert cluster.Progressed();
      if e.None? && !p.IsReplicationTarget() && p.restore.None? {
        e := CreateInitDBJob();
      }
    }

    method CreateInitMap(data: Object) returns (e: Option<Error>)
      requires Creating()
      modifies cluster
      ensures cluster.Progressed() && |cluster.log| == |old(cluster.log)| + 1
      ensures e.None? ==> cluster.Faults() == old(cluster.Faults())
      ensures e.None? ==> Makes(cluster.Latest(), cluster.x.initMap) && cluster.w(old(cluster.clock)).outcome == Done
      ensures cluster.x.initMap !in old(cluster.objects) ==>
        && (Makes(cluster.Latest(), cluster.x.initMap) <==> cluster.w(old(cluster.clock)).outcome != Refused)
        && (cluster.x.initMap in cluster.objects <==> cluster.w(old(cluster.clock)).outcome != Refused)
        && (e.None? <==> cluster.w(old(cluster.clock)).outcome == Done)
      ensures cluster.x.initMap in old(cluster.objects) ==> e.Some? && cluster.x.initMap in cluster.objects
      ensures cluster.x.initJob in cluster.objects ==> cluster.x.initJob in old(cluster.objects)
      ensures cluster.Latest().mode == cluster.mode && cluster.Latest().outcome == cluster.w(old(cluster.clock)).outcome
      ensures old(cluster.Calm()) && cluster.x.initMap !in old(cluster.objects) ==>
        e.None? && cluster.objects == old(cluster.objects)[cluster.x.initMap := data]
    {
      e := cluster.Create(cluster.x.initMap, data);
      if cluster.x.initMap in old(cluster.objects) {
        MapSurvives(cluster, old(cluster.log), old(cluster.objects));
      } else {
        LastCallMakes(cluster, old(cluster.log), old(cluster.objects), cluster.x.initMap);
      }
      if cluster.x.initJob !in old(cluster.objects) {
        LastCallMakes(cluster, old(cluster.log), old(cluster.objects), cluster.x.initJob);
      }
    }

    /** Only a new database gets the global data; the dummy stands in when they can not be read. */
    method ChooseInitData(p: Postgres, global: Key, dummy: string) returns (data: Object)
      requires Creating()
      modifies cluster
      ensures cluster.Progressed() && |cluster.log| == |old(cluster.log)| + Lookups(p)
      ensures MayFail(cluster.x, Read(global), cluster.mode.excuse) ==> cluster.Faults() == old(cluster.Faults())
      ensures cluster.x.initMap in cluster.objects <==> cluster.x.initMap in old(cluster.objects)
      ensures cluster.x.initJob in cluster.objects ==> cluster.x.initJob in old(cluster.objects)
      ensures old(cluster.Calm()) ==>
        cluster.objects == old(cluster.objects) && data == InitData(cluster.objects, IsNewDatabase(p), global, dummy)
    {
      data := Data(map[InitSQL := dummy]);
      if p.IsPrimaryOrStandalone() && p.restore.None? {
        var template := cluster.Get(global);
        StayAway(old(cluster.log), old(cluster.objects));
        if template.Ok? {
          data := Data(EntriesOf(template.value));
        }
      }
    }

    method CreateInitDBJob() returns (e: Option<Error>)
      requires Creating() && cluster.mode.newDatabase
      requires cluster.log != [] && Makes(cluster.Latest(), cluster.x.initMap) && cluster.Latest().mode == cluster.mode
      requires cluster.Latest().outcome == Done
      modifies cluster
      ensures cluster.Progressed() && cluster.x.initMap in cluster.objects
      ensures e.None? ==> cluster.Faults() == old(cluster.Faults())
      ensures cluster.x.initJob !in old(cluster.objects) ==>
        && |cluster.log| == |old(cluster.log)| + 2
        && (Makes(cluster.Latest(), cluster.x.initJob) <==> cluster.w(old(cluster.clock) + 1).outcome != Refused)
        && (cluster.x.initJob in cluster.objects <==> cluster.w(old(cluster.clock) + 1).outcome != Refused)
        && (e.None? <==> cluster.w(old(cluster.clock) + 1).outcome == Done)
      ensures old(cluster.Calm()) ==> e.None? && cluster.objects == Ensured(old(cluster.objects), cluster.x.initJob, Plain)
    {
      var job := cluster.Get(cluster.x.initJob);
      StayAway(old(cluster.log), old(cluster.objects));
      if job.Ok? {
        return None;
      }
      ghost var log, s := cluster.log, cluster.objects;
      e := cluster.Create(cluster.x.initJob, Plain);
      MapSurvives(cluster, log, s);
      if cluster.x.initJob !in s {
        LastCallMakes(cluster, log, s, cluster.x.initJob);
      }
    }

    // ----------------------------------------------- whole passes

    method PrepareInstance(instance: Object, input: Input) returns (e: Option<Error>)
      requires Valid() && Creating() && instance.Instance?
      requires cluster.x.instance in cluster.objects && cluster.objects[cluster.x.instance] == instance
      modifies cluster
      ensures cluster.Progressed()
      ensures e.None? ==> WritesServices(cluster.x, cluster.log, |old(cluster.log)|, input) && FindsOperator(cluster.x, manager, cluster.log, |old(cluster.log)|)
      ensures e.None? ==> cluster.Faults() == old(cluster.Faults())
      ensures e.None? ==> Finalized(cluster.x, cluster.objects)
      ensures old(cluster.Calm()) ==>
        && (e.None? <==> CanPrepare(cluster.x, manager, old(cluster.objects), input))
        && (e.None? ==> SameForLater(cluster.x, old(cluster.objects), cluster.objects) && IsPrepared(cluster.x, manager, cluster.objects, input))
    {
      e := AddFinalizer(instance);
      if e.Some? {
        return;
      }
      ghost var log, s := cluster.log, cluster.objects;
      if old(cluster.Calm()) {
        OffInstanceAgrees(cluster.x, manager, old(cluster.objects), s, input);
      }
      e := PrepareOperator(input);
      FinalizerSurvives(cluster, log, s);
      if e.None? {
        OperatorStillFound(cluster.x, manager, cluster.log, cluster.log, |log|, |old(cluster.log)|);
        ServicesStillWritten(cluster.x, cluster.log, cluster.log, |log|, |old(cluster.log)|, input);
      }
    }

    method PrepareOperator(input: Input) returns (e: Option<Error>)
      requires Valid() && Creating()
      modifies cluster
      ensures cluster.Progressed()
      ensures e.None? ==> WritesServices(cluster.x, cluster.log, |old(cluster.log)|, input) && FindsOperator(cluster.x, manager, cluster.log, |old(cluster.log)|)
      ensures e.None? ==> cluster.Faults() == old(cluster.Faults())
      ensures old(cluster.Calm()) ==>
        && (e.None? <==> CanPrepare(cluster.x, manager, old(cluster.objects), input))
        && (e.None? ==> SameForLater(cluster.x, old(cluster.objects), cluster.objects) && IsPrepared(cluster.x, manager, cluster.objects, input))
    {
      e := GetBackupConfig(input.backup, input.readable);
      if e.Some? {
        return;
      }
      ghost var s, before := cluster.objects, cluster.log;
      e := EnsureZalandoDependencies();
      assert cluster.Progressed();
      if e.Some? {
        return;
      }
      ghost var t := cluster.objects;
      if old(cluster.Calm()) && !HasOperatorPod(s, cluster.x.ns) {
        InstallationIsFramed(cluster.x, manager, s, t);
        InstalledIsThere(cluster.x, manager, Prelude(s, cluster.x.ns, manager.global, manager.decode), t);
      }
      ghost var log := cluster.log;
      e := PrepareServices(input);
      if e.None? {
        OperatorStillFound(cluster.x, manager, log, cluster.log, |before|, |old(cluster.log)|);
        ServicesStillWritten(cluster.x, cluster.log, cluster.log, |log|, |old(cluster.log)|, input);
      }
      if old(cluster.Calm()) && e.None? {
        ServicesArePrepared(cluster.x, manager, t, cluster.objects, input);
      }
    }

    /** The standby's egress policy comes first; the global sidecars map is a must for the exporter. */
    method PrepareServices(input: Input) returns (e: Option<Error>)
      requires Creating() && manager.global.kind == ConfigMap
      modifies cluster
      ensures cluster.Progressed()
      ensures e.None? ==> WritesServices(cluster.x, cluster.log, |old(cluster.log)|, input)
      ensures e.None? ==> cluster.Faults() == old(cluster.Faults())
      ensures old(cluster.Calm()) ==>
        && (e.None? <==> manager.global in old(cluster.objects))
        && (e.None? ==> cluster.objects == WithEgress(old(cluster.objects), input)[cluster.x.exporter := Plain])
    {
      e := None;
      if input.spec.connection.Some? {
        e := CreateOrUpdate(cluster.x.standbyEgress, false);
      }
      assert cluster.Progressed();
      if e.None? {
        ghost var log := cluster.log;
        e := PrepareExporter();
        if e.None? {
          StillWritten(cluster.log, cluster.log, |log|, |old(cluster.log)|, cluster.x.exporter);
          if input.spec.connection.Some? {
            StillWritten(log, cluster.log, |old(cluster.log)|, |old(cluster.log)|, cluster.x.standbyEgress);
          }
        }
      }
    }

    ghost function WithEgress(s: Store, input: Input): Store {
      if input.spec.connection.Some? then s[cluster.x.standbyEgress := Plain] else s
    }

    method PrepareExporter() returns (e: Option<Error>)
      requires Creating()
      modifies cluster
      ensures cluster.Progressed()
      ensures e.None? ==> IsWritten(cluster.log, |old(cluster.log)|, cluster.x.exporter)
      ensures e.None? ==> cluster.Faults() == old(cluster.Faults())
      ensures old(cluster.Calm()) ==>
        && (e.None? <==> manager.global in old(cluster.objects))
        && (e.None? ==> cluster.objects == old(cluster.objects)[cluster.x.exporter := Plain])
    {
      var sidecars := cluster.Get(manager.global);
      ghost var n := |cluster.log|;
      if sidecars.Ok? {
        e := CreateOrUpdate(cluster.x.exporter, true);
        StillWrittenFor(e, cluster.log, cluster.log, n, |old(cluster.log)|, cluster.x.exporter);
      } else {
        e := Some(sidecars.error);
      }
    }

    method BuildDatabase(input: Input) returns (e: Option<Error>)
      requires cluster.mode.excuse == Excused(cluster.x, input)
      requires Creating() && cluster.mode.newDatabase == IsNewDatabase(input.spec)
      modifies cluster
      ensures cluster.Progressed()
      ensures e.None? ==> WritesDatabase(cluster.x, cluster.log, |old(cluster.log)|)
      ensures e.None? ==> cluster.Faults() == old(cluster.Faults())
      ensures e.None? ==> KeyIsReady(cluster.x, cluster.objects)
      ensures old(cluster.Calm()) ==>
        && (e.None? <==> CanBuild(cluster.x, old(cluster.objects), input))
        && (e.None? ==> IsBuilt(cluster.x, cluster.objects)) && OnlyAdds(cluster.x, old(cluster.objects), cluster.objects)
    {
      e := EnsureStorageEncryptionSecret(input.passphrase);
      if e.Some? {
        return;
      }
      ghost var log, s := cluster.log, cluster.objects;
      if old(cluster.Calm()) {
        KeyAgrees(cluster.x, old(cluster.objects), input.passphrase);
        LaterAgrees(cluster.x, old(cluster.objects), s, input);
      }
      e := BuildOnKey(input);
      assert cluster.Progressed();
      if e.None? {
        KeySurvives(cluster, log, s);
        DatabaseStillWritten(cluster.x, cluster.log, cluster.log, |log|, |old(cluster.log)|);
      }
    }

    method BuildOnKey(input: Input) returns (e: Option<Error>)
      requires cluster.mode.excuse == Excused(cluster.x, input)
      requires Creating() && cluster.mode.newDatabase == IsNewDatabase(input.spec) && KeyIsReady(cluster.x, cluster.objects)
      modifies cluster
      ensures cluster.Progressed()
      ensures e.None? ==> WritesDatabase(cluster.x, cluster.log, |old(cluster.log)|)
      ensures e.None? ==> cluster.Faults() == old(cluster.Faults())
      ensures old(cluster.Calm()) ==>
        && (e.None? <==> CanBuild(cluster.x, old(cluster.objects), input))
        && (e.None? ==> IsBuilt(cluster.x, cluster.objects)) && OnlyAdds(cluster.x, old(cluster.objects), cluster.objects)
    {
      e := CreateOrUpdateZalandoPostgresql(input);
      if e.None? {
        ghost var before, log := cluster.objects, cluster.log;
        ExcusedCalls(cluster.x, input);
        e := EnsureInitDBJob(input.spec, input.initMap, input.dummy);
        DatabaseStillWritten(cluster.x, log, cluster.log, |old(cluster.log)|, |old(cluster.log)|);
        InitDBKeepsTheRest(cluster.x, before, IsNewDatabase(input.spec), input.initMap, input.dummy);
        if old(cluster.Calm()) {
          ZalandoStays(cluster.x, before, cluster.objects);
        }
      }
    }

    /** One load balancer: an unwanted one is deleted, where failing does not matter; a wanted one is
        refreshed, or made if there is a port for it. What is in it is modelled in `LoadBalancers`. */
    method ReconcileSvcLB(k: Key, wanted: bool, portFree: bool) returns (e: Option<Error>)
      requires Creating() && IsOrdinary(cluster.x, k)
      modifies cluster
      ensures cluster.Progressed()
      ensures e.None? && wanted ==> IsWritten(cluster.log, |old(cluster.log)|, k)
      ensures e.None? && (wanted || MayFail(cluster.x, Delete(k), cluster.mode.excuse)) ==> cluster.Faults() == old(cluster.Faults())
      ensures !wanted ==> e.None?
      ensures old(cluster.Calm()) ==>
        && (e.Some? <==> wanted && k !in old(cluster.objects) && !portFree)
        && (e.None? ==> cluster.objects == Put(old(cluster.objects), k, if wanted then Some(Plain) else None))
        && (e.Some? ==> cluster.objects == old(cluster.objects))
    {
      if wanted {
        e := RefreshSvcLB(k, portFree);
      } else {
        var ignored := cluster.Delete(k);
        e := None;
      }
    }

    method RefreshSvcLB(k: Key, portFree: bool) returns (e: Option<Error>)
      requires Creating() && IsOrdinary(cluster.x, k)
      modifies cluster
      ensures cluster.Progressed()
      ensures e.None? ==> IsWritten(cluster.log, |old(cluster.log)|, k) && cluster.Faults() == old(cluster.Faults())
      ensures old(cluster.Calm()) ==>
        && (e.Some? <==> k !in old(cluster.objects) && !portFree)
        && cluster.objects == if e.None? then old(cluster.objects)[k := Plain] else old(cluster.objects)
    {
      var got := cluster.Get(k);
      assert cluster.Progressed();
      if got.Ok? || (got.error == NotFound && portFree) {
        ghost var n := |cluster.log|;
        e := Write(k, got.Ok?);
        StillWrittenFor(e, cluster.log, cluster.log, n, |old(cluster.log)|, k);
      } else {
        e := Some(Failed);
      }
    }

    /** Both load balancers are handled even when the first one fails. */
    method ReconcileSvcLBs(input: Input) returns (e: Option<Error>)
      requires cluster.mode.excuse == Excused(cluster.x, input)
      requires Creating()
      modifies cluster
      ensures cluster.Progressed()
      ensures e.None? ==> WritesBalancers(cluster.x, cluster.log, |old(cluster.log)|, input)
      ensures e.None? ==> cluster.Faults() == old(cluster.Faults())
      ensures old(cluster.Calm()) ==>
        && (e.None? <==> CanBalance(cluster.x, old(cluster.objects), input))
        && (cluster.x.dedicatedLB in cluster.objects <==> input.spec.EnableDedicatedSvcLB())
        && (e.None? ==> IsBalanced(cluster.x, cluster.objects, input)) && Keeps(cluster.x, old(cluster.objects), cluster.objects)
    {
      var shared := ReconcileSvcLB(cluster.x.sharedLB, input.spec.EnableSharedSvcLB(input.forceSharedIP), input.portFree);
      ghost var log := cluster.log;
      ExcusedCalls(cluster.x, input);
      var dedicated := ReconcileSvcLB(cluster.x.dedicatedLB, input.spec.EnableDedicatedSvcLB(), true);
      e := if shared.Some? then shared else dedicated;
      if e.None? && input.spec.EnableSharedSvcLB(input.forceSharedIP) {
        StillWritten(log, cluster.log, |old(cluster.log)|, |old(cluster.log)|, cluster.x.sharedLB);
      }
      if e.None? && input.spec.EnableDedicatedSvcLB() {
        StillWritten(cluster.log, cluster.log, |log|, |old(cluster.log)|, cluster.x.dedicatedLB);
      }
    }

    /** The load balancers, then the policies, which need the port; last, what the replication check said. */
    method OpenInstance(input: Input) returns (end: PassEnd)
      requires cluster.mode.excuse == Excused(cluster.x, input)
      requires Creating()
      modifies cluster
      ensures cluster.Progressed()
      ensures !end.Aborted? ==> end == EndOfPass(input) && WritesAccess(cluster.x, cluster.log, |old(cluster.log)|, input)
      ensures !end.Aborted? ==> cluster.Faults() == old(cluster.Faults())
      ensures old(cluster.Calm()) ==>
        && (CanBalance(cluster.x, old(cluster.objects), input) ==> end == EndOfPass(input) && IsOpen(cluster.x, cluster.objects, input))
        && (!CanBalance(cluster.x, old(cluster.objects), input) ==> end.Aborted?)
        && Keeps(cluster.x, old(cluster.objects), cluster.objects)
    {
      var e := ReconcileSvcLBs(input);
      assert cluster.Progressed();
      end := Aborted;
      if e.None? {
        ghost var log := cluster.log;
        end := OpenPolicies(input);
        if !end.Aborted? {
          BalancersStillWritten(cluster.x, log, cluster.log, |old(cluster.log)|, |old(cluster.log)|, input);
          PoliciesStillWritten(cluster.x, cluster.log, cluster.log, |log|, |old(cluster.log)|, input);
        }
      }
    }

    method OpenPolicies(input: Input) returns (end: PassEnd)
      requires Creating()
      modifies cluster
      ensures cluster.Progressed()
      ensures !end.Aborted? ==> end == EndOfPass(input) && WritesPolicies(cluster.x, cluster.log, |old(cluster.log)|, input)
      ensures !end.Aborted? ==> cluster.Faults() == old(cluster.Faults())
      ensures old(cluster.Calm()) && IsBalanced(cluster.x, old(cluster.objects), input) ==>
        && end == EndOfPass(input) && IsOpen(cluster.x, cluster.objects, input)
        && Keeps(cluster.x, old(cluster.objects), cluster.objects)
    {
      if input.port == 0 {
        return Requeued;
      }
      var e := CreateOrUpdateIngressCWNP(input.spec);
      if old(cluster.Calm()) && IsBalanced(cluster.x, old(cluster.objects), input) {
        PoliciesOpen(cluster.x, old(cluster.objects), cluster.objects, input);
      }
      end := if e.Some? || input.checkFailed then Aborted else if input.checkAgain then Requeued else Finished;
    }

    method CreateOrUpdateIngressCWNP(p: Postgres) returns (e: Option<Error>)
      requires Creating()
      modifies cluster
      ensures cluster.Progressed()
      ensures e.None? ==> cluster.Faults() == old(cluster.Faults())
      ensures e.None? ==> IsWritten(cluster.log, |old(cluster.log)|, cluster.x.policy)
      ensures e.None? && p.connection.Some? ==> IsWritten(cluster.log, |old(cluster.log)|, cluster.x.standbyIngress)
      ensures old(cluster.Calm()) ==>
        && e.None?
        && var s := old(cluster.objects)[cluster.x.policy := Plain];
        && cluster.objects == if p.connection.Some? then s[cluster.x.standbyIngress := Plain] else s
    {
      e := CreateOrUpdate(cluster.x.policy, false);
      assert cluster.Progressed();
      if e.None? && p.connection.Some? {
        ghost var log := cluster.log;
        e := CreateOrUpdate(cluster.x.standbyIngress, false);
        StillWritten(log, cluster.log, |old(cluster.log)|, |old(cluster.log)|, cluster.x.policy);
        StillWrittenFor(e, cluster.log, cluster.log, |log|, |old(cluster.log)|, cluster.x.standbyIngress);
      }
    }

    /** A pass over an instance that is not being deleted. */
    method CreationPass(instance: Object, input: Input) returns (end: PassEnd)
      requires cluster.mode.excuse == Excused(cluster.x, input)
      requires Valid() && Creating() && instance.Instance? && cluster.mode.newDatabase == IsNewDatabase(input.spec)
      requires cluster.x.instance in cluster.objects && cluster.objects[cluster.x.instance] == instance
      modifies cluster
      ensures cluster.Progressed()
      ensures !end.Aborted? ==> end == EndOfPass(input) && GetsThrough(|old(cluster.log)|, input)
      ensures end.Finished? ==> IsWritten(cluster.log, |old(cluster.log)|, cluster.x.policy)
      ensures !end.Aborted? ==> NoFaults(cluster.x, cluster.log, |old(cluster.log)|, |cluster.log|) && cluster.Faults() == old(cluster.Faults())
      ensures old(cluster.Calm()) ==>
        if CanOpen(cluster.x, manager, old(cluster.objects), input)
        then end == EndOfPass(input) && IsComplete(cluster.x, manager, cluster.objects, input)
        else end.Aborted?
    {
      var e := PrepareInstance(instance, input);
      if e.Some? {
        return Aborted;
      }
      ghost var log, s := cluster.log, cluster.objects;
      if old(cluster.Calm()) {
        LaterAgrees(cluster.x, old(cluster.objects), s, input);
      }
      end := BuildAndOpen(input);
      FinalizerSurvives(cluster, log, s);
      if !end.Aborted? {
        PassIsWritten(old(cluster.log), log, input);
      }
      if old(cluster.Calm()) {
        PreparedStays(cluster.x, manager, s, cluster.objects, input);
      }
    }

    /** What a creation pass has done from entry `n` on that is not aborted, disturbed or not: it has seen or
        installed the operator, written every wanted object, and left the key held and the instance finalized. */
    ghost predicate GetsThrough(n: nat, input: Input)
      reads cluster
    {
      && FindsOperator(cluster.x, manager, cluster.log, n) && WritesAll(cluster.x, cluster.log, n, input)
      && KeyIsReady(cluster.x, cluster.objects) && Finalized(cluster.x, cluster.objects)
    }

    /** From `log0` on the preparation is in `log`, and the rest behind it. */
    lemma PassIsWritten(log0: seq<Entry>, log: seq<Entry>, input: Input)
      requires cluster.Valid() && log0 <= log <= cluster.log && TallyAt(log0, |log0|).faults == cluster.Faults()
      requires FindsOperator(cluster.x, manager, log, |log0|) && WritesServices(cluster.x, log, |log0|, input)
      requires WritesDatabase(cluster.x, cluster.log, |log|) && WritesAccess(cluster.x, cluster.log, |log|, input)
      ensures FindsOperator(cluster.x, manager, cluster.log, |log0|) && WritesAll(cluster.x, cluster.log, |log0|, input)
      ensures NoFaults(cluster.x, cluster.log, |log0|, |cluster.log|)
    {
      OperatorStillFound(cluster.x, manager, log, cluster.log, |log0|, |log0|);
      ServicesStillWritten(cluster.x, log, cluster.log, |log0|, |log0|, input);
      DatabaseStillWritten(cluster.x, cluster.log, cluster.log, |log|, |log0|);
      AccessStillWritten(cluster.x, cluster.log, cluster.log, |log|, |log0|, input);
      assert TallyAt(cluster.log, |log0|) == TallyAt(log0, |log0|);
      SameTally(cluster.x, cluster.initial, cluster.log, |log0|, |cluster.log|);
    }

    method BuildAndOpen(input: Input) returns (end: PassEnd)
      requires cluster.mode.excuse == Excused(cluster.x, input)
      requires Creating() && cluster.mode.newDatabase == IsNewDatabase(input.spec)
      modifies cluster
      ensures cluster.Progressed()
      ensures !end.Aborted? ==>
        && end == EndOfPass(input) && WritesDatabase(cluster.x, cluster.log, |old(cluster.log)|)
        && WritesAccess(cluster.x, cluster.log, |old(cluster.log)|, input)
      ensures !end.Aborted? ==> cluster.Faults() == old(cluster.Faults())
      ensures !end.Aborted? ==> KeyIsReady(cluster.x, cluster.objects)
      ensures old(cluster.Calm()) ==>
        && (if CanBuild(cluster.x, old(cluster.objects), input) && CanBalance(cluster.x, old(cluster.objects), input)
            then end == EndOfPass(input) && IsBuilt(cluster.x, cluster.objects) && IsOpen(cluster.x, cluster.objects, input)
            else end.Aborted?)
        && Keeps(cluster.x, old(cluster.objects), cluster.objects)
    {
      var e := BuildDatabase(input);
      if e.Some? {
        return Aborted;
      }
      assert old(cluster.Calm()) ==> (CanBalance(cluster.x, old(cluster.objects), input) <==> CanBalance(cluster.x, cluster.objects, input));
      ghost var log := cluster.log;
      end := OpenOnKey(input);
      if !end.Aborted? {
        DatabaseStillWritten(cluster.x, log, cluster.log, |old(cluster.log)|, |old(cluster.log)|);
        AccessStillWritten(cluster.x, cluster.log, cluster.log, |log|, |old(cluster.log)|, input);
      }
    }

    /** The key stays, and so does the database. */
    method OpenOnKey(input: Input) returns (end: PassEnd)
      requires cluster.mode.excuse == Excused(cluster.x, input)
      requires Creating() && KeyIsReady(cluster.x, cluster.objects)
      modifies cluster
      ensures cluster.Progressed() && KeyIsReady(cluster.x, cluster.objects)
      ensures !end.Aborted? ==> end == EndOfPass(input) && WritesAccess(cluster.x, cluster.log, |old(cluster.log)|, input)
      ensures !end.Aborted? ==> cluster.Faults() == old(cluster.Faults())
      ensures old(cluster.Calm()) && IsBuilt(cluster.x, old(cluster.objects)) ==>
        && (if CanBalance(cluster.x, old(cluster.objects), input)
            then end == EndOfPass(input) && IsBuilt(cluster.x, cluster.objects) && IsOpen(cluster.x, cluster.objects, input)
            else end.Aborted?)
        && Keeps(cluster.x, old(cluster.objects), cluster.objects)
    {
      end := OpenInstance(input);
      KeySurvives(cluster, old(cluster.log), old(cluster.objects));
      if old(cluster.Calm()) && IsBuilt(cluster.x, old(cluster.objects)) {
        BuiltStays(cluster.x, old(cluster.objects), cluster.objects);
      }
    }

    method Reconcile(input: Input) returns (end: PassEnd)
      requires Valid() && (IsAlive(cluster.x, cluster.initial) ==> KeyHeldIfPresent(cluster.x, cluster.initial))
      modifies cluster
      ensures Valid() && old(cluster.log) <= cluster.log
      ensures !input.managed ==> |cluster.log| == |old(cluster.log)| + 1 && cluster.Latest().op == Read(cluster.x.instance)
      ensures |cluster.log| > |old(cluster.log)|
      ensures input.managed && IsAlive(cluster.x, cluster.log[|old(cluster.log)|].found) && !end.Aborted? ==>
        && end == EndOfPass(input) && GetsThrough(|old(cluster.log)|, input)
        && IsSound(cluster.x, cluster.log, |old(cluster.log)|, Excused(cluster.x, input))
      ensures input.managed && IsAlive(cluster.x, cluster.log[|old(cluster.log)|].found) && end.Finished? ==>
        input.port != 0 && !input.checkFailed && !input.checkAgain && IsWritten(cluster.log, |old(cluster.log)|, cluster.x.policy)
      ensures input.managed && IsMarked(cluster.x, cluster.log[|old(cluster.log)|].found) && end.Finished? ==>
        && !Finalized(cluster.x, cluster.objects) && Uninstalls(cluster.log, |old(cluster.log)|, manager.items, cluster.x.ns)
        && IsSound(cluster.x, cluster.log, |old(cluster.log)| + 1, WhileDeleting)
      ensures old(cluster.Calm()) && GoodBindings(cluster.initial) && input.managed && IsMarked(cluster.x, old(cluster.objects)) ==>
        && (end.Finished? <==> CanFinish(cluster.x, manager.items, old(cluster.objects)))
        && (end.Finished? ==> !Finalized(cluster.x, cluster.objects))
        && (end.Finished? ==> IsLeftBehind(cluster.x, manager.items, old(cluster.objects), cluster.objects))
      ensures old(cluster.Calm()) && input.managed && IsAlive(cluster.x, old(cluster.objects)) ==>
        if CanOpen(cluster.x, manager, old(cluster.objects), input) then IsLeftComplete(end, input)
        else end.Aborted?
    {
      cluster.BeginPass(IsNewDatabase(input.spec), Excused(cluster.x, input));
      var got := cluster.Get(cluster.x.instance);
      if got.Err? {
        return if got.error == NotFound then Finished else Aborted;
      }
      if !input.managed || !got.value.Instance? {
        return Finished;
      }
      ghost var log, first := cluster.log, cluster.Latest();
      if got.value.deleting {
        end := DeletionPass(got.value);
        assert cluster.log[|old(cluster.log)|] == first;
        if end.Finished? {
          StillUninstalls(cluster.log, cluster.log, |log|, |old(cluster.log)|, manager.items, cluster.x.ns);
        }
      } else {
        end := ReconcileLiving(got.value, input, old(cluster.log));
        assert cluster.log[|old(cluster.log)|] == first;
      }
    }

    /** `log0` is the history before the pass, which has only looked the instance up yet. */
    method ReconcileLiving(instance: Object, input: Input, ghost log0: seq<Entry>) returns (end: PassEnd)
      requires Valid() && instance.Instance? && !instance.deleting
      requires IsAlive(cluster.x, cluster.initial) ==> KeyHeldIfPresent(cluster.x, cluster.initial)
      requires cluster.x.instance in cluster.objects && cluster.objects[cluster.x.instance] == instance
      requires cluster.mode.excuse == Excused(cluster.x, input) && cluster.mode.newDatabase == IsNewDatabase(input.spec)
      requires log0 <= cluster.log && |cluster.log| == |log0| + 1 && cluster.Latest().mode == cluster.mode
      requires TallyAt(log0, |log0|).faults == cluster.Faults()
      modifies cluster
      ensures cluster.Progressed()
      ensures !end.Aborted? ==>
        && end == EndOfPass(input) && GetsThrough(|log0|, input)
        && IsSound(cluster.x, cluster.log, |log0|, Excused(cluster.x, input))
      ensures old(cluster.Calm()) ==>
        if CanOpen(cluster.x, manager, old(cluster.objects), input)
        then end == EndOfPass(input) && IsComplete(cluster.x, manager, cluster.objects, input)
        else end.Aborted?
    {
      AliveFromTheStart(cluster.x, cluster.initial, cluster.log, |cluster.log|);
      end := CreationPass(instance, input);
      if !end.Aborted? {
        StillThrough(|old(cluster.log)|, |log0|, input);
        assert cluster.log[|log0|] == old(cluster.Latest());
        PhaseIsSound(cluster, log0);
      }
    }

    lemma StillThrough(n: nat, n': nat, input: Input)
      requires n' <= n && GetsThrough(n, input)
      ensures GetsThrough(n', input)
    {
      OperatorStillFound(cluster.x, manager, cluster.log, cluster.log, n, n');
      ServicesStillWritten(cluster.x, cluster.log, cluster.log, n, n', input);
      DatabaseStillWritten(cluster.x, cluster.log, cluster.log, n, n');
      AccessStillWritten(cluster.x, cluster.log, cluster.log, n, n', input);
    }

    /** How an undisturbed creation pass ends that gets through. */
    ghost predicate IsLeftComplete(end: PassEnd, input: Input)
      reads cluster
    {
      && end == EndOfPass(input) && IsComplete(cluster.x, manager, cluster.objects, input)
      && (!end.Aborted? ==> KeyIsReady(cluster.x, cluster.objects) && Finalized(cluster.x, cluster.objects))
    }

    /** Any sequence of passes over the instance, and of installations and uninstallations of operators
        for other namespaces, whatever happens in between and whatever fails. */
    method Run(events: seq<Event>)
      requires Valid() && forall ns :: IsManifest(manager.items, cluster.x, ns)
      requires IsAlive(cluster.x, cluster.initial) ==> KeyHeldIfPresent(cluster.x, cluster.initial)
      modifies cluster
      ensures Valid() && old(cluster.log) <= cluster.log
      ensures RunIsSafe(cluster.x, cluster.initial, cluster.log, cluster.objects)
    {
      for i := 0 to |events|
        invariant Valid() && old(cluster.log) <= cluster.log
      {
        match events[i]
        case Pass(input) =>
          var end := Reconcile(input);
        case Install(ns) =>
          var e := manager.InstallOrUpdateOperator(ns);
        case Uninstall(ns) =>
          if ns != cluster.x.ns {
            var e, panicked := manager.UninstallOperator(ns);
          }
      }
      HistoriesAreSafe(cluster.x, cluster.initial, cluster.log);
    }

    /** The first attempt at the initdb job that makes the map decides: whatever happens meanwhile and
        whatever runs afterwards, a call ever makes the job if and only if this attempt does. */
    method FirstAttemptDecides(p: Postgres, global: Key, dummy: string, events: seq<Event>)
      requires Valid() && Creating() && (forall ns :: IsManifest(manager.items, cluster.x, ns))
      requires cluster.mode.newDatabase == IsNewDatabase(p) && HasNeither(cluster.x, cluster.objects)
      modifies cluster
      ensures Valid() && old(cluster.log) <= cluster.log
      ensures cluster.w(old(cluster.clock) + 1 + Lookups(p)).outcome != Refused ==>
        IsDecided(old(cluster.clock) + 1 + Lookups(p), JobIsMade(p, cluster.w, old(cluster.clock) + 1 + Lookups(p)))
    {
      ghost var m := cluster.clock + 1 + Lookups(p);
      var e := EnsureInitDBJob(p, global, dummy);
      ghost var log, s := cluster.log, cluster.objects;
      Run(events);
      if cluster.w(m).outcome != Refused {
        AttemptIsLast(p, m, log, s);
      }
    }

    /** Call `m` made the map, and the job is made in this history or not. */
    ghost predicate IsDecided(m: nat, made: bool)
      reads cluster
    {
      && m < |cluster.log| && Makes(cluster.log[m], cluster.x.initMap)
      && (made <==> exists j :: 0 <= j < |cluster.log| && Makes(cluster.log[j], cluster.x.initJob))
      && (!made ==> cluster.x.initJob !in cluster.objects)
    }

    /** `log` and `s` are the history and the store right after the attempt. */
    lemma AttemptIsLast(p: Postgres, m: nat, log: seq<Entry>, s: Store)
      requires cluster.Valid() && log <= cluster.log && s == StateAt(cluster.initial, log, |log|)
      requires IsAttempt(cluster.x, cluster.w, p, log, m) && cluster.w(m).outcome != Refused
      requires cluster.x.initJob in s <==> JobIsMade(p, cluster.w, m)
      ensures IsDecided(m, JobIsMade(p, cluster.w, m))
    {
      assert cluster.log[..|log|] == log;
      JobIsDecided(cluster.x, cluster.initial, cluster.log, m);
      if !JobIsMade(p, cluster.w, m) {
        JobComesByACall(cluster.x, cluster.initial, cluster.log, |log|, |cluster.log|);
      }
    }
  }

  /** A living instance, finalized, with its key and its Zalando resource, as a pass over it has left it
      when it comes to the initdb job. */
  function BeforeInitDB(x: Target, passphrase: string): Store {
    map[x.instance := Instance(false, [PostgresFinalizer]),
        x.storageSecret := StorageKey(passphrase, [StorageFinalizer]),
        x.zalando := Plain]
  }

  /** For every new database: if the creation of the job, the call after the lookup of the map, that of the
      global data, the creation of the map and the lookup of the job, is refused, there never is a job,
      whatever runs afterwards. */
  method JobCanBeLost(p: Postgres, w: nat -> Turn, passphrase: string, rule: string, sidecars: Key,
                      decode: string -> Option<string>, initMap: Key, dummy: string, events: seq<Event>)
    returns (cluster: Cluster)
    requires IsNewDatabase(p) && sidecars.kind == ConfigMap
    requires w(4) == Turn([], Refused) && forall n: nat :: n < 4 ==> w(n) == Turn([], Done)
    ensures fresh(cluster) && cluster.Valid() && cluster.x == TargetOf(p, true) && cluster.w == w
    ensures cluster.initial == BeforeInitDB(cluster.x, passphrase) && IsAlive(cluster.x, cluster.initial)
    ensures |cluster.log| > 2 && Makes(cluster.log[2], cluster.x.initMap)
    ensures cluster.x.initJob !in cluster.objects && forall j :: 0 <= j < |cluster.log| ==> !Makes(cluster.log[j], cluster.x.initJob)
  {
    var x := TargetOf(p, true);
    cluster := new Cluster(x, w, BeforeInitDB(x, passphrase));
    var manager := new OperatorManager(cluster, MANIFEST, rule, sidecars, decode);
    var reconciler := new PostgresReconciler(cluster, manager);
    cluster.BeginPass(true, NoExcuse);
    forall ns
      ensures IsManifest(MANIFEST, x, ns)
    {
      ShippedManifestIsGood(p, true, ns);
    }
    reconciler.FirstAttemptDecides(p, initMap, dummy, events);
  }

  datatype Event = Pass(input: Input) | Install(ns: string) | Uninstall(ns: string)

  /** The call took the instance's finalizer away, and all of the instance's objects were gone by then. */
  ghost predicate EndsTheInstance(x: Target, e: Entry) {
    e.op.Update? && e.op.key == x.instance && Finalized(x, e.found) && AllGone(x, e.found)
  }

  /** The storage key, if it was there and still is, has not changed. */
  predicate SameKey(x: Target, s: Store, t: Store) {
    var k := x.storageSecret;
    k in s && s[k].StorageKey? && k in t ==> t[k].StorageKey? && t[k].passphrase == s[k].passphrase
  }

  /** Nor has the initdb map. */
  predicate SameMap(x: Target, s: Store, t: Store) {
    x.initMap in s && x.initMap in t ==> t[x.initMap] == s[x.initMap]
  }

  /** Between the state a run starts in and the state it has reached. */
  ghost predicate RunIsSafe(x: Target, initial: Store, log: seq<Entry>, now: Store) {
    && (ZalandoHasKey(x, initial) ==> ZalandoHasKey(x, now))
    && (KeyHeldIfPresent(x, initial) ==> forall n: nat :: n <= |log| ==> SameKey(x, StateAt(initial, log, n), now))
    && (forall n: nat :: n <= |log| ==> SameMap(x, StateAt(initial, log, n), now))
    && (GoodBindings(initial) ==> GoodBindings(now))
    && (Finalized(x, initial) && !Finalized(x, now) ==> exists i :: 0 <= i < |log| && EndsTheInstance(x, log[i]))
    && (forall i, j :: 0 <= i < |log| && 0 <= j < |log| && Makes(log[i], x.initJob) && Makes(log[j], x.initJob) ==> i == j)
    && (forall i :: 0 <= i < |log| && Makes(log[i], x.initJob) ==> log[i].mode.newDatabase)
  }

  lemma NothingIsRewritten(x: Target, initial: Store, log: seq<Entry>, n: nat)
    requires HistoryOk(x, initial, log) && n <= |log|
    ensures KeyHeldIfPresent(x, initial) ==> SameKey(x, StateAt(initial, log, n), StateAt(initial, log, |log|))
    ensures SameMap(x, StateAt(initial, log, n), StateAt(initial, log, |log|))
  {
    var s := StateAt(initial, log, n);
    if KeyHeldIfPresent(x, initial) && x.storageSecret in s && s[x.storageSecret].StorageKey? {
      KeyIsWrittenOnce(x, initial, log, n, |log|);
    }
    if x.initMap in s {
      InitMapIsWrittenOnce(x, initial, log, n, |log|);
    }
  }

  lemma HistoriesAreSafe(x: Target, initial: Store, log: seq<Entry>)
    requires HistoryOk(x, initial, log)
    ensures RunIsSafe(x, initial, log, StateAt(initial, log, |log|))
  {
    forall n: nat | n <= |log|
      ensures KeyHeldIfPresent(x, initial) ==> SameKey(x, StateAt(initial, log, n), StateAt(initial, log, |log|))
      ensures SameMap(x, StateAt(initial, log, n), StateAt(initial, log, |log|))
    {
      NothingIsRewritten(x, initial, log, n);
    }
    if ZalandoHasKey(x, initial) {
      ZalandoAlwaysHasKey(x, initial, log, |log|);
    }
    if GoodBindings(initial) {
      BindingsStayGood(x, initial, log, |log|);
    }
    if Finalized(x, initial) && !Finalized(x, StateAt(initial, log, |log|)) {
      var i := FinalizerGoesLast(x, initial, log, 0, |log|);
      assert EndsTheInstance(x, log[i]);
    }
    forall i | 0 <= i < |log| && Makes(log[i], x.initJob)
      ensures log[i].mode.newDatabase
    {
      JobFollowsMap(x, initial, log, i);
    }
    forall i, j | 0 <= i < |log| && 0 <= j < |log| && Makes(log[i], x.initJob) && Makes(log[j], x.initJob)
      ensures i == j
    {
      JobIsMadeOnce(x, initial, log, i, j);
    }
  }
}
