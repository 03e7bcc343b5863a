# Verified model of the postgreslet

The postgreslet is a Kubernetes controller. For every `Postgres` resource of its control plane it keeps a set of
objects in a service cluster: a namespace with the external Zalando operator, a Zalando resource, load balancer
services, firewall policies, a storage key, and Patroni's replication configuration. This project models the parts
whose correctness is a matter of whole runs, or of a loop that is not obviously right, and proves what they keep.

Imperative code is modelled by classes and methods that change maps, fields and arrays; each such method is tied to a
function or relation, about which the lemmas then speak. Every API call ends in one of three ways (`Kube.Outcome`):
done, refused without effect, or lost, which means carried out although the caller sees an error. A failed pass ends,
and the next one starts from the beginning.

| file | subject |
|---|---|
| `Kube.dfy` | optional values, results, 32-bit integers, the outcomes of a call |
| `Names.dfy`, `Labels.dfy`, `Parameters.dfy` | derived names, label values, layering of Postgres parameters |
| `LoadBalancers.dfy`, `Allocation.dfy`, `SocketChain.dfy` | the load balancer manager, its runs, and the way of a port into the ingress policy |
| `Patroni.dfy`, `Replication.dfy` | JSON merge patches (section 2 of RFC 7396) and the replication check |
| `World.dfy`, `History.dfy` | both clusters with interference, rules for the environment and for the controller, and what every history keeps |
| `Subjects.dfy`, `Operator.dfy`, `OperatorLaws.dfy` | the shared role binding, installing and uninstalling the operator |
| `Passes.dfy` | the stages of a deletion, and when an undisturbed pass of one instance comes to its end |
| `Lifecycle.dfy` | creation and deletion passes of one instance, and runs of them |

`World` is built as rely and guarantee. Before each call the environment may do anything that `World.May` permits:
it may delete what it likes except role bindings, namespaces, the initdb map, the instance and a held storage secret;
it never creates what only this controller creates; derived objects (StatefulSets, cluster service, passwords) appear
only while a Zalando resource exists. `World.Allowed` is what a call of the controller may do in return. Every method
that calls the cluster has to prove that it keeps to these rules whatever the environment does first; the lemmas of
`History` hold for every history that obeys both. Contracts under `Calm()` describe, exactly, what happens when from
now on no call fails and nobody interferes, whatever happened before. Away from that, the history keeps a tally of the
calls that failed: success of an operation, or a pass that is not aborted, means that no call of it failed but those
that `World.MayFail` excuses, and that what is wanted was really written. An instance whose finalizers are gone stays
in the store as a mark of its end.

What the proofs found in the code:

- A first managed service gets the start of the port range without a look at its size (exact condition
  `Allocation.AllocatedInRange`, at work in `FirstPortCanBeOutOfRange`), and the end of the range is computed with
  32 bits, so a range that reaches beyond 2^31 - 1 counts as empty (`Allocation.NeverFailsBelowCapacity`,
  `RangeCanWrap`).
- A second reconciliation of the load balancers is idle with exactly one exception: the first one found no port and
  its dedicated half then released one (`Allocation.SecondPassIsIdle`). That happens to an instance that gives its
  own address up while its dedicated service holds the only port of the range (`Allocation.SecondPassCanAct`). Of the
  four combinations of shared and dedicated service only three can be asked for (`Allocation.OneServiceIsWanted`).
- The removal of a namespace's subjects is right exactly when no two of them are neighbours and the last subject is
  not one of several; otherwise one stays or the loop slices beyond the end (`Subjects.LoopIsRightExactly`,
  `Subjects.LoopCanGoWrong`). With at most one per namespace, which installation keeps, it is always right.
- A missing manifest object ends an uninstallation early and reports success, so the namespace stays
  (`OperatorLaws.NamespaceGoesExactly`); a second try after a failure past the first deletion does nothing at all
  (`OperatorLaws.SecondTryDoesNothing`; with the shipped manifest, down to the stale subject in the shared binding,
  `OperatorLaws.SecondTryLeaks`).
- A missing role binding blocks a deletion, unless an item behind it in the manifest is missing too
  (`OperatorLaws.SuccessExactly`; with the shipped manifest `OperatorLaws.MissingBindingBlocks`). While the binding
  exists and StatefulSets and cluster service are gone, an undisturbed deletion pass always finishes, whatever else
  is missing (`Passes.DeletionFinishes`, `Passes.ShippedDeletionFinishes`).
- With several leaders or no connection, the replication check itself switches the role (exact condition
  `ReplicationRuns.WhenACheckSwitchesTheRole`, both ways in `ReplicationRuns.ACheckCanSwitchTheRole`), against the
  comment at `controllers/postgres_controller.go:427-428`.
- A standby that is marked as synchronous gets an error from every patch, although the patch takes effect
  (`ReplicationRuns.LeaderOkExactly`, `ReplicationRuns.AllPodsOkExactly`).
- The attempt at the initdb job that makes the initdb map decides for good: the job is ever made if and only if the
  database is new, the creation of the map is answered, and that of the job is not refused
  (`Lifecycle.PostgresReconciler.FirstAttemptDecides`, on `History.JobIsLost`). One refused call over a living
  instance loses it, whatever runs afterwards (`Lifecycle.JobCanBeLost`).
- An undisturbed deletion pass that finishes leaves the namespace exactly if a manifest object was missing when it
  began, and then everything of the manifest before the last missing object as well, the subject in the shared
  binding included (`Passes.IsLeftBehind`, in the contract of `Lifecycle.PostgresReconciler.DeletionPass`).

## Model

| member | source | states |
|---|---|---|
| Names.ResourceNameIsDnsLabel | api/v1/postgres_types.go:545-636 | the resource name is at most 37 long, and a DNS label (section 2.3.1 of RFC 1035) if and only if something is left of description or name and no upper-case letter of the name is kept |
| Names.NameIsKept | api/v1/postgres_types.go:612-636 | at least min(5, length) leading characters of the stripped name survive |
| Names.PartsAreKept | api/v1/postgres_types.go:592-636 | the team identifier is "pg" with the tenant in lower case, cut at 16; the database name begins with up to 15 characters of the description |
| Names.NamespaceIsInjective | api/v1/postgres_types.go:638-658 | two instances share a namespace exactly when their stripped, truncated project and name parts both agree |
| Names.DerivedNamesAreNotFixed | api/v1/postgres_types.go:592-610 | names derived from the resource name begin with "pg" and so differ from the fixed names of the code |
| Labels.SanitizedIsValid | api/v1/postgres_types.go:1169-1196 | for every text the result is a valid label value; the identity exactly on valid values, hence idempotent |
| Labels.SanitizedKeepsAlnum | api/v1/postgres_types.go:1174-1196 | the result's alphanumeric characters are a prefix of the input's, and all of them up to 63 characters |
| Labels.SanitizedKeepsWords | api/v1/postgres_types.go:1174-1196 | text of at most 63 characters has the same words afterwards: no separator between two of them goes |
| Labels.SanitizedInPlace | api/v1/postgres_types.go:1174-1196 | text with single gaps inside is changed in no other way than by an underscore for each invalid character |
| Labels.SanitizedHasSingleUnderscores | api/v1/postgres_types.go:1174-1196 | changed text has no two neighbouring underscores |
| Parameters.ParameterMap.EnableAuditLogs | api/v1/postgres_types.go:1021-1030 | sets the audit values over what is there |
| Parameters.ParameterMap.SetDefaultPostgresParams | api/v1/postgres_types.go:1032-1062 | sets the version-dependent defaults over what is there |
| Parameters.ParameterMap.SetPostgresParams | api/v1/postgres_types.go:1064-1072 | sets the user's unblocked values, in whatever order the map is visited |
| Parameters.ParameterMap.SetSharedBufferSize | api/v1/postgres_types.go:988-1000 | sets a shared buffer size of at least 32 MiB, in MB |
| Parameters.BuildParameters | api/v1/postgres_types.go:707-718 | every key ends with: valid buffer size, else unblocked user value, else default, else audit value; so an unblocked user value always wins but against a valid buffer size, and a blocked key ignores the user |
| Parameters.DefaultsByVersion | api/v1/postgres_types.go:1045-1061 | which defaults exist for which versions, at 12 and 13 exactly |
| Parameters.DecimalIsRight | api/v1/postgres_types.go:988-1000 | the number of megabytes is written in decimal without leading zeros |
| Parameters.OrderDoesNotMatter | api/v1/postgres_types.go:1064-1072 | any two visiting orders of the user's map end in the same map |
| LoadBalancers.LBManager.NextFreeSocket | pkg/lbmanager/lbmanager.go:211-256 | finds the least unused port of the range and an address that some managed service has, or fails |
| LoadBalancers.ContainsElem | pkg/lbmanager/lbmanager.go:258-266 | true exactly for the elements of the list |
| LoadBalancers.LBManager.CreateOrUpdateSharedSvcLB | pkg/lbmanager/lbmanager.go:62-129 | one pass over the shared service under every combination of outcomes: creation with a fresh port, or refresh of selector, ranges and annotations only |
| LoadBalancers.LBManager.CreateOrUpdateDedicatedSvcLB | pkg/lbmanager/lbmanager.go:132-184 | the same for the dedicated service |
| LoadBalancers.SharedIsRight | api/v1/postgres_types.go:372-429 | after a pass that wants the shared service and succeeds, selector, source ranges and annotations are as the specification says, whatever was in the store; a new service has the configured address, an old one keeps address and ports |
| LoadBalancers.DedicatedIsRight | pkg/lbmanager/lbmanager.go:132-184 | the same for the dedicated service, with the instance's own address and port |
| LoadBalancers.ReportsExactly | pkg/lbmanager/lbmanager.go:62-184 | an error is reported never over an unwanted service, and over a wanted one exactly if a needed call fails or there is no port |
| LoadBalancers.LBManager.ReconcileSvcLBs | pkg/lbmanager/lbmanager.go:42-60 | both halves run even when the first fails |
| LoadBalancers.LBManager.DeleteSharedSvcLB | pkg/lbmanager/lbmanager.go:187-196 | a missing service counts as deleted |
| LoadBalancers.LBManager.DeleteDedicatedSvcLB | pkg/lbmanager/lbmanager.go:199-208 | a missing service counts as deleted |
| Allocation.AllocationIsExact | pkg/lbmanager/lbmanager.go:216-256 | with a managed service, the least unused port of the range is found, and none exactly when all are used |
| Allocation.NeverFailsBelowCapacity | pkg/lbmanager/lbmanager.go:216-256 | with fewer managed services than ports, allocation succeeds if and only if the end of the range is representable |
| Allocation.PortsAtMostServices | pkg/lbmanager/lbmanager.go:228-256 | pigeonhole: n consecutive used ports need n services |
| Allocation.AllocatedInRange | pkg/lbmanager/lbmanager.go:216-256 | an allocated port lies in the range, except for the first service of an empty range |
| Allocation.FirstPortCanBeOutOfRange | pkg/lbmanager/lbmanager.go:223-226 | the first service gets a port out of an empty range |
| Allocation.RangeCanWrap | pkg/lbmanager/lbmanager.go:239-256 | a range of ten ports whose end is beyond 2^31 - 1 yields none for a second service although all ten are free |
| Allocation.RunKeepsUniquePorts | pkg/lbmanager/lbmanager.go:42-129 | in every run of reconciles, deletes, option changes and failures the shared services have distinct ports |
| Allocation.EveryPortHasAnOrigin | pkg/lbmanager/lbmanager.go:62-129 | every shared service of a run has kept its port since the start, or since one reconcile event of the run, over its own instance, that found it missing, took the next free port by the options of that very event (within their range if it is representable and not empty), and made it |
| Allocation.NewSharedInRange | pkg/lbmanager/lbmanager.go:75-108 | one event makes a shared service only by reconciling its instance, with the next free port of that event's range |
| Allocation.RunKeepsSocket | pkg/lbmanager/lbmanager.go:110-126 | a shared service keeps address and port until it is deleted |
| Allocation.OnlyDeletionRemoves | pkg/lbmanager/lbmanager.go:62-71 | only a delete, or a reconcile of an instance that does not want it, removes a shared service |
| Allocation.PassIsFramed | pkg/lbmanager/lbmanager.go:42-208 | a pass touches no service but the two of its instance |
| Allocation.SecondPassIsIdle | pkg/lbmanager/lbmanager.go:42-208 | a second pass changes nothing, if and only if not both: no port for the shared service, and the dedicated half releases one |
| Allocation.SecondPassCanAct | pkg/lbmanager/lbmanager.go:42-208 | the exception is real: a pass makes a dedicated service on the only port of the range, the instance gives its address up, and only the second pass after that makes its shared service |
| Allocation.PassIsRight | pkg/lbmanager/lbmanager.go:42-60 | a whole pass without an error leaves every wanted service right; one without failing calls removes the unwanted ones and reports an error exactly if there is no port |
| SocketChain.StatusReconciler.UpdateSocket | controllers/status_controller.go:102-142 | the sockets of the status as derived from the two services |
| SocketChain.SharedIsShown | controllers/status_controller.go:102-142 | the socket of an instance on the shared service is that service's address and port, or none |
| SocketChain.DedicatedIsShown | controllers/status_controller.go:102-142 | once one address is reported for a dedicated service that a successful pass has made, the status shows the wanted address and port, as the only or as the additional socket |
| SocketChain.StatusPassSees | controllers/status_controller.go:103-142 | a status pass with working calls sees the shared service's socket |
| SocketChain.StepsKeepSeen | controllers/status_controller.go:102-178 | what was seen stays right over all later events while the service stays in use |
| SocketChain.PolicyOpensTheSharedPort | controllers/postgres_controller.go:404-418 | a later completed pass leaves the ingress policy opening exactly the shared service's port |
| Json.MemberAfterPatch | controllers/postgres_controller.go:1344-1371 | a merge patch removes members given as null, merges objects, replaces the rest, keeps what it does not name |
| Json.MergePatchTwice | controllers/postgres_controller.go:1344-1371 | a merge patch applied twice is the same as applied once |
| PatroniConfig.PatchThenRead | controllers/postgres_controller.go:122-131 | reading the document after a patch gives back the request |
| PatroniConfig.PatchKeepsTheRest | controllers/postgres_controller.go:122-131 | a patch keeps all members that the request does not have |
| Replication.Reconciler.HttpPatchPatroni | controllers/postgres_controller.go:1291-1387 | which request is sent, that it takes effect, and when an error is reported in spite of that |
| Replication.Reconciler.UpdatePatroniReplicationConfigOnAllPods | controllers/postgres_controller.go:1252-1289 | one patch per pod, going on after failures |
| Replication.Reconciler.CheckAndUpdatePatroniReplicationConfig | controllers/postgres_controller.go:1114-1233 | document, requests, requeue flag and error of one check |
| ReplicationRuns.HonestCompletion | controllers/postgres_controller.go:1131-1232 | done without an error means that the document reads as wanted, and a synchronous primary has resolved its standby |
| ReplicationRuns.DoneMeansWanted | controllers/postgres_controller.go:1158-1232 | with one leader and a connection the check reports done if and only if the document already reads as wanted |
| ReplicationRuns.SyncPrimaryNamesOnlyItsStandby | controllers/postgres_controller.go:1303-1328 | every request of a synchronous primary names nobody or the connected instance; unresolved, it never reports done |
| ReplicationRuns.SyncPrimaryNamesItsStandby | controllers/postgres_controller.go:1303-1328 | if the connected instance can be looked up, every request of a synchronous primary names it, also over all pods |
| ReplicationRuns.RequestsAreOwn | controllers/postgres_controller.go:1300-1342 | the content of every request, for all kinds of instance |
| ReplicationRuns.AllPodsMakeItWanted | controllers/postgres_controller.go:1252-1289 | a check over all pods that reaches Patroni leaves a document that reads as wanted |
| ReplicationRuns.AllPodsOkExactly | controllers/postgres_controller.go:1252-1387 | over all pods there is no error if and only if every patch is answered and none lacks the application name |
| ReplicationRuns.LeaderOkExactly | controllers/postgres_controller.go:1291-1387 | a check that patches the leader reports an error if and only if the patch is not answered or lacks the application name |
| ReplicationRuns.ComesBackExactly | controllers/postgres_controller.go:1114-1233 | when a check asks to come back |
| ReplicationRuns.FailedQueriesAreErrors | controllers/postgres_controller.go:1123-1157 | failing queries are errors, and without a patch nothing else is |
| ReplicationRuns.PatchesExactlyWhenNeeded | controllers/postgres_controller.go:1145-1232 | one patch exactly when the role is right and the rest is not, after which it is as wanted, even when an error is reported |
| ReplicationRuns.Convergence | controllers/postgres_controller.go:1145-1232 | at most one check of a run patches, and from the second on all report done |
| ReplicationRuns.NoProgressWithoutTheRole | controllers/postgres_controller.go:1160-1206 | with the wrong role a check only asks to come back |
| ReplicationRuns.WhenACheckSwitchesTheRole | controllers/postgres_controller.go:1131-1158 | a check changes the presence of `standby_cluster` exactly on the paths without a connection or without a single leader |
| ReplicationRuns.ACheckCanSwitchTheRole | controllers/postgres_controller.go:1131-1158 | a standby document loses `standby_cluster` by a check without a connection, and by one of a primary without a leader |
| ReplicationRuns.OnlyTheOperatorSwitchesTheRole | controllers/postgres_controller.go:1158-1228 | over any interleaving of other checks with operator steps only the operator switches the role |
| World.Cluster.Get | controllers/postgres_controller.go:1869-1879 | answers from the store as the environment has left it, or fails |
| World.Cluster.Create | controllers/postgres_controller.go:1903-1905 | makes a missing object unless refused; no error exactly if it was missing and the call was answered |
| World.Cluster.Update | controllers/postgres_controller.go:1947-1949 | changes an existing object only, and never the deletion mark |
| World.Cluster.Delete | controllers/postgres_controller.go:907-923 | success and "not found" both mean that the object is gone |
| World.Cluster.DeleteNamespace | pkg/operatormanager/operatormanager.go:274-279 | success and "not found" both mean that the namespace is gone, whatever others do; what was in it goes along but for what a finalizer holds |
| World.InterferedIsTransitive | controllers/postgres_controller.go:138-439 | any number of permitted actions of others amounts to what the rules say of one |
| World.HistoryGrows | controllers/postgres_controller.go:138-439 | a history stays one when a call that keeps to the rules is added |
| History.SameTally | controllers/postgres_controller.go:138-439 | if the tally has not grown, every call in between has succeeded, or was one that may fail |
| History.ZalandoAlwaysHasKey | controllers/postgres_controller.go:355-361 | in every reachable state a Zalando resource exists only with its storage secret, held by the finalizer |
| History.KeyIsWrittenOnce | controllers/postgres_controller.go:1856-1954 | wherever the secret exists its passphrase is the one first written; it goes away only after a deletion pass has begun, and is never made again |
| History.HeldUntilTeardown | controllers/postgres_controller.go:204-223 | until a deletion pass begins, an existing storage secret is held |
| History.InitMapIsWrittenOnce | controllers/postgres_controller.go:1967-2008 | the initdb map never changes once it exists, and goes away only after a deletion pass has begun |
| History.MapIsMadeOnce | controllers/postgres_controller.go:1967-2008 | over all runs at most one call creates the map |
| History.JobFollowsMap | controllers/postgres_controller.go:2005-2110 | the job is created by the very pass that made the map, right after it, over a primary or standalone instance that is not a restore |
| History.JobIsMadeOnce | controllers/postgres_controller.go:1967-2110 | over all runs at most one initdb job is ever created |
| History.JobIsLost | controllers/postgres_controller.go:1967-2110 | once a call has created the map, no call creates the job but the second one after it, and that one only if the creation of the map was answered in a pass over a new database |
| History.AliveFromTheStart | controllers/postgres_controller.go:167-168 | an instance that is not being deleted has not been so in any earlier state |
| History.BindingsStayGood | pkg/operatormanager/operatormanager.go:324-369 | over any sequence of installs and uninstalls every role binding names at most one service account per namespace |
| History.NothingComesBack | controllers/postgres_controller.go:167-259 | once a deletion pass has begun nothing of the instance's objects appears again, and nothing derived without a Zalando resource |
| History.FinalizerGoesLast | controllers/postgres_controller.go:167-259 | the call that takes the finalizer finds policy, load balancers, exporter service, Zalando resources, StatefulSets, cluster service and passwords all gone |
| Subjects.Slice.RemoveAt | pkg/operatormanager/operatormanager.go:244 | shifts the tail inside the same array and shortens the slice |
| Subjects.RemoveNamespace | pkg/operatormanager/operatormanager.go:241-249 | the loop on array and slice ends as the loop on values, patches once per removal, and leaves the binding equal to the slice |
| Subjects.LoopIsExact | pkg/operatormanager/operatormanager.go:241-249 | for every list: panics exactly when a last subject is one of several, else leaves exactly the survivors, skipping the element that moves up |
| Subjects.LoopIsRightExactly | pkg/operatormanager/operatormanager.go:241-249 | it removes all of the namespace's subjects, and only them, if and only if no two are neighbours and the last is not one of several |
| Subjects.LoopIsRightForOne | pkg/operatormanager/operatormanager.go:241-249 | with at most one per namespace: in bounds, one patch if named and none otherwise, exactly that subject gone, the others in order |
| Subjects.LoopCanGoWrong | pkg/operatormanager/operatormanager.go:241-249 | the two ways to go wrong, by example |
| Subjects.RemovalKeepsAtMostOne | pkg/operatormanager/operatormanager.go:244 | a removal keeps at most one service account per namespace |
| Operator.OperatorManager.CreateOrUpdateNamespace | pkg/operatormanager/operatormanager.go:498-530 | success means that the namespace exists, also under interference; undisturbed it always succeeds and changes nothing else |
| Operator.OperatorManager.CreatePodEnvironmentConfigMap | pkg/operatormanager/operatormanager.go:533-562 | success means that the map exists, also under interference; undisturbed an old one stays as it is; any read failure leads to a creation |
| Operator.OperatorManager.CreateOrGetPodEnvironmentSecret | pkg/operatormanager/operatormanager.go:565-594 | the same for the secret |
| Operator.OperatorManager.CreateOrUpdateSidecarsConfig | pkg/operatormanager/operatormanager.go:596-668 | success means that the map exists, also under interference; undisturbed it fails exactly without the global map, else writes the two entries of the global one that can be decoded |
| Operator.OperatorManager.EnsureSubject | pkg/operatormanager/operatormanager.go:324-369 | a missing binding is created; an existing one gets the subject once per namespace, at the end |
| Operator.OperatorManager.CreateNewClientObject | pkg/operatormanager/operatormanager.go:286-417 | in any run, success means that the item was written, or its binding names the namespace, and that no call failed; undisturbed, one item is installed under its key and nothing else changes; unknown kinds are errors |
| Operator.OperatorManager.InstallOrUpdateOperator | pkg/operatormanager/operatormanager.go:126-167 | in any run, success means that every item of the manifest was placed and no call failed that matters; undisturbed, it succeeds exactly with the global map and known kinds only, and then every item has its content and all else is framed |
| Operator.InstalledHaveContents | pkg/operatormanager/operatormanager.go:286-417 | what is installed: a cluster role's own rules followed by the added one, other objects as in the manifest, a new binding with its subjects moved to the namespace, an old one with its subjects and one account |
| Operator.OperatorManager.UninstallOperator | pkg/operatormanager/operatormanager.go:219-283 | never slices beyond a binding's subjects in a run; in any run, success means that every call succeeded and the last one found a manifest object missing or deleted the namespace, in the latter case after all items were removed; undisturbed, it stops at the last missing item and succeeds exactly as `Succeeds` says |
| Operator.OperatorManager.IsOperatorDeletable | pkg/operatormanager/operatormanager.go:170-198 | "deletable" means service gone, and StatefulSets gone to stay once the Zalando resources are |
| Operator.OperatorManager.IsOperatorInstalled | pkg/operatormanager/operatormanager.go:201-216 | whether the namespace has an operator pod |
| Operator.FindAccount | pkg/operatormanager/operatormanager.go:354-358 | whether a service account of the namespace is among the subjects |
| Operator.SetNamespaces | pkg/operatormanager/operatormanager.go:328-332 | exactly the service accounts get the namespace |
| Operator.AppendKeepsAtMostOne | pkg/operatormanager/operatormanager.go:361-365 | appending an account for a namespace not yet named keeps at most one per namespace |
| OperatorLaws.ShippedManifestIsGood | external/svc-postgres-operator.yaml:4-542 | the shipped manifest meets what the code relies on, for every instance and namespace: one account, first in its binding, distinct objects, none that the instance's own passes handle |
| OperatorLaws.SuccessExactly | pkg/operatormanager/operatormanager.go:219-283 | success if and only if the last missing object is in the namespace, or none is missing and the namespace exists |
| OperatorLaws.SuccessWithTheBinding | pkg/operatormanager/operatormanager.go:219-283 | while the bindings exist: success if and only if the namespace exists or one of its manifest objects is missing |
| OperatorLaws.MissingBindingBlocks | pkg/operatormanager/operatormanager.go:230-239 | with the shipped manifest installed and only the binding missing, no undisturbed uninstallation succeeds |
| OperatorLaws.NamespaceGoesExactly | pkg/operatormanager/operatormanager.go:219-283 | the namespace goes if and only if no binding and no manifest object is missing |
| OperatorLaws.SecondTryDoesNothing | pkg/operatormanager/operatormanager.go:259-262 | with the last manifest object missing an uninstallation reports success and changes nothing |
| OperatorLaws.SecondTryLeaks | pkg/operatormanager/operatormanager.go:219-283 | with the shipped manifest installed and then its last object deleted, an uninstallation reports success and leaves exactly what it found: namespace, operator, and the namespace's account in the shared binding |
| OperatorLaws.RoundTrip | pkg/operatormanager/operatormanager.go:126-283 | install and uninstall of a fresh namespace: all else as before, old bindings with their old subjects in order, only cluster roles and new bindings stay |
| Lifecycle.RemoveElem | controllers/postgres_controller.go:1956-1965 | the list without the element, the rest in order |
| Passes.RemovedInParts | controllers/postgres_controller.go:1956-1965 | that list is made part by part, so nothing is doubled, dropped or reordered |
| Passes.RemovedOne | controllers/postgres_controller.go:1956-1965 | of one element it keeps that element, or nothing if it is the one to go |
| Lifecycle.PostgresReconciler.DeleteCWNP | controllers/postgres_controller.go:903-926 | the main policy is gone; failing to delete the standby policies does not matter |
| Lifecycle.PostgresReconciler.DeleteZPostgresqlByLabels | controllers/postgres_controller.go:812-827 | success means that no Zalando resource is left, whatever others did meanwhile |
| Lifecycle.PostgresReconciler.RemoveStorageEncryptionSecretFinalizer | controllers/postgres_controller.go:1927-1954 | success means that nothing holds the secret any more |
| Lifecycle.PostgresReconciler.DeletionPass | controllers/postgres_controller.go:167-259 | keeps the rules under any interference; in any run, finished means that the finalizer is gone, a whole uninstallation succeeded, and no call failed but deletions of standby and network policies; undisturbed, it finishes exactly when `CanFinish` holds at its start, and then leaves of namespace and manifest what `IsLeftBehind` says |
| Passes.UninstallLeaves | pkg/operatormanager/operatormanager.go:219-283 | an uninstallation leaves the namespace exactly if it was there with a manifest object missing; objects before the last missing one are as before, the others uninstalled |
| Passes.DeletionProgresses | controllers/postgres_controller.go:167-259 | with the bindings there and StatefulSets and cluster service gone, whatever else is missing, `CanFinish` holds if and only if the namespace exists or one of its manifest objects is missing |
| Passes.DeletionFinishes | controllers/postgres_controller.go:167-259 | so it always holds, since no manifest object outlives its namespace, if the manifest puts anything into the namespace |
| Passes.ShippedDeletionFinishes | controllers/postgres_controller.go:167-259 | with the shipped manifest: while the shared binding exists and StatefulSets and cluster service are gone, an undisturbed deletion pass finishes |
| Passes.CanFinishAgrees | controllers/postgres_controller.go:176-223 | the deletions before the operator's have no influence on that |
| Passes.InstallationIsFramed | controllers/postgres_controller.go:529-539 | an installation of the operator changes nothing that the later steps of the pass look at |
| Lifecycle.PostgresReconciler.AddFinalizer | controllers/postgres_controller.go:261-270 | success means that the instance has the finalizer; undisturbed it keeps the others, and nothing else changes |
| Lifecycle.PostgresReconciler.GetBackupConfig | controllers/postgres_controller.go:1436-1458 | undisturbed: no error if and only if the backup secret exists and can be read |
| Lifecycle.PostgresReconciler.EnsureZalandoDependencies | controllers/postgres_controller.go:529-539 | undisturbed: nothing if there is an operator pod; else it succeeds if and only if the global sidecars map exists and all kinds are known, and then everything is installed |
| Lifecycle.PostgresReconciler.EnsureStorageEncryptionSecret | controllers/postgres_controller.go:1856-1910 | unless it is switched off: success means a held secret; an existing one is left alone, a new one has the generated passphrase and the finalizer, a failed read ends the pass |
| Lifecycle.PostgresReconciler.ReadSource | controllers/postgres_controller.go:454-476 | undisturbed: fails exactly without a source, or when the source can be read but its backup configuration can not |
| Lifecycle.PostgresReconciler.CreateOrUpdateZalandoPostgresql | controllers/postgres_controller.go:451-512 | a Zalando resource is made only under a held secret; undisturbed it succeeds if and only if `CanBuild` holds, and only adds |
| Lifecycle.PostgresReconciler.EnsureInitDBJob | controllers/postgres_controller.go:1967-2110 | under any interference and failure: if there is neither map nor job, the map is made unless its creation is refused, and the job if and only if the database is new, that creation is answered and its own is not refused; if the map is there, no job comes; undisturbed, standbys and restores get the dummy data and others the global data if there are any |
| Lifecycle.PostgresReconciler.CreationPass | controllers/postgres_controller.go:261-438 | in any run, not aborted means: it ends as port and replication check say, no call failed that matters, the operator was seen or installed, every wanted object was written, finalizer and held secret are in place; undisturbed, it gets through exactly if `CanOpen` holds at its start, and then all of that is there with exactly the wanted load balancers |
| Lifecycle.PostgresReconciler.CreateOrUpdateIngressCWNP | controllers/postgres_controller.go:832-871 | undisturbed: the main policy, and the standby's if there is a connection, and nothing else |
| Lifecycle.PostgresReconciler.ReconcileSvcLB | pkg/lbmanager/lbmanager.go:62-184 | a failed deletion of an unwanted load balancer does not matter; undisturbed a wanted one is there unless it is missing and has no free port |
| Lifecycle.PostgresReconciler.ReconcileSvcLBs | pkg/lbmanager/lbmanager.go:42-60 | the dedicated half runs even if the shared one fails; undisturbed it fails exactly when a missing shared service gets no port |
| Lifecycle.PostgresReconciler.OpenInstance | controllers/postgres_controller.go:373-433 | undisturbed: exactly the wanted load balancers, and the policies once there is a port; without a port it is requeued, with one it ends as the replication check says |
| Lifecycle.PostgresReconciler.Reconcile | controllers/postgres_controller.go:138-439 | nothing but a read for foreign instances; in any run, a pass over a living instance that is not aborted has had no failing call but the excused ones and has written all that is wanted, and a finished one the ingress policy; a finished one over a deleted instance has uninstalled the operator; if from then on nothing is disturbed, the first happens exactly when `CanOpen` holds and the second exactly when `CanFinish` does |
| Lifecycle.PostgresReconciler.Run | controllers/postgres_controller.go:138-439 | any sequence of passes and of installs and uninstalls elsewhere, disturbed or not, extends the history by calls that keep to the rules, and is safe in the sense of `RunIsSafe` |
| Lifecycle.PostgresReconciler.FirstAttemptDecides | controllers/postgres_controller.go:1967-2110 | an attempt that makes the map, under any interference and followed by any run: a call ever makes the job if and only if the database is new, the creation of the map was answered and the second call after it was not refused |
| Lifecycle.JobCanBeLost | controllers/postgres_controller.go:2005-2110 | for every new database: a living, finalized instance whose creation of the job is refused never gets one, whatever runs afterwards |
| Lifecycle.HistoriesAreSafe | controllers/postgres_controller.go:138-439 | every run: no Zalando resource without a held key, key and initdb map never rewritten, bindings good, at most one initdb job and only over a new database, the finalizer taken only when all is gone |

## Left out

- Concurrent passes, stale caches, resource versions and conflicts: passes run one after the other on fresh reads (the code flags this itself at `pkg/lbmanager/lbmanager.go:212`). What others do between two calls is modelled.
- Resource names that collide: instances are taken to have distinct namespaces (`Names.NamespaceIsInjective` says when they have).
- JSON numbers that are not integers and the case-insensitive matching of field names in the JSON reader; parsing of quantities, versions, address ranges and manifests, whose results are inputs.
- The choice of the shared address when none is configured and several services exist: the code takes any listed one, and so does the model.
- What a patch call writes back into the object it was given: the loop of `Subjects.RemoveNamespace` goes on with the slice it sent.
- The contents of config maps, deployments, network policies, firewall policies and of the Zalando resource except its parameters: in `Operator` and `Lifecycle` they are opaque or plain objects.
- Certificates, standby and clone secrets, monitors, wal-g and exporter deployments, network policy creation, pod environment updates: further steps of a creation pass, with only easy facts of their own. A pass that fails in one of them ends earlier than `Passes.CanOpen` says.
- Deletions that take their time: an object without a finalizer is gone with the call that deletes it, and so is a namespace with all in it but what a finalizer holds. A namespace that is still terminating, or a service with a clean-up finalizer, would still be there; `History.FinalizerGoesLast` rests on that.
- The result of the replication check is an input of a creation pass, and so is whether there is a free port for a new shared service; both are computed in `Replication` and `LoadBalancers`.
- The switch for storage keys (`EnableRandomStorageEncryptionSecret`) is `World.TargetKeys.encrypted`, the same over a whole history: a controller that is restarted with the other setting begins a new one.
- `UpdateAllManagedOperators`: its installations are events of `Lifecycle.PostgresReconciler.Run`.
- Label selectors of the lists of Zalando resources and StatefulSets: all of a namespace count as the instance's. The operator's pods are told from others.
- The standby policies may outlive the instance, because failing to delete them is only logged; the finalizer does not wait for them.
- Unnamed Postgres parameters: keys other than those the code mentions are one family of names, `Other`, taken to differ from them.
- main.go, leader election, events, metrics, webhooks and etcd: no property of their own.
