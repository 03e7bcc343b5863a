/** What holds in every history: any run of calls that keep to the controller's rules, each preceded by
    any actions that the environment rules permit, each carried out or not. */
module History {
  import opened Kube
  import opened World

  /** From one state to the next: the environment acts, then the call has its effect or none. */
  lemma OneStep(x: Target, initial: Store, log: seq<Entry>, n: nat)
    requires HistoryOk(x, initial, log) && n < |log|
    ensures var e := log[n];
            && Interfered(x, StateAt(initial, log, n), e.found)
            && (StateAt(initial, log, n + 1) == e.found || StateAt(initial, log, n + 1) == Effect(e.op, e.found))
            && StateAt(initial, log, n + 1) == e.after
            && Allowed(x, log[..n], e.found, e.op, e.mode)
            && (n > 0 && log[n - 1].mode.teardown ==> e.mode.teardown)
  {
    assert EntryOk(x, initial, log, n);
  }

  lemma CallIsAllowed(x: Target, initial: Store, log: seq<Entry>, n: nat)
    requires HistoryOk(x, initial, log) && n < |log|
    ensures Allowed(x, log[..n], log[n].found, log[n].op, log[n].mode)
    ensures log[n].after == log[n].found || log[n].after == Effect(log[n].op, log[n].found)
  {
    assert EntryOk(x, initial, log, n);
  }

  lemma TeardownStep(x: Target, initial: Store, log: seq<Entry>, n: nat)
    requires HistoryOk(x, initial, log) && 0 < n < |log|
    ensures log[n - 1].mode.teardown ==> log[n].mode.teardown
  {
    assert EntryOk(x, initial, log, n);
  }

  lemma {:induction false} TeardownStays(x: Target, initial: Store, log: seq<Entry>, i: nat, j: nat)
    requires HistoryOk(x, initial, log) && i <= j < |log| && log[i].mode.teardown
    ensures log[j].mode.teardown
  {
    if i < j {
      TeardownStays(x, initial, log, i, j - 1);
      TeardownStep(x, initial, log, j);
    }
  }

  // ------------------------------------------------- failing calls

  lemma TallyStep(x: Target, initial: Store, log: seq<Entry>, n: nat)
    requires HistoryOk(x, initial, log) && n < |log|
    ensures TallyAt(log, n + 1) == TallyAfter(x, TallyAt(log, n), log[n].op, log[n].found, log[n].outcome, log[n].mode)
  {
    assert EntryOk(x, initial, log, n);
  }

  lemma {:induction false} TallyGrows(x: Target, initial: Store, log: seq<Entry>, n: nat, m: nat)
    requires HistoryOk(x, initial, log) && n <= m <= |log|
    ensures TallyAt(log, n).failed <= TallyAt(log, m).failed && TallyAt(log, n).faults <= TallyAt(log, m).faults
  {
    if n < m {
      TallyGrows(x, initial, log, n, m - 1);
      TallyStep(x, initial, log, m - 1);
    }
  }

  /** From the n-th entry on up to the m-th every call has succeeded. */
  ghost predicate AllSucceed(log: seq<Entry>, n: nat, m: nat)
    requires m <= |log|
  {
    forall j :: n <= j < m ==> Succeeded(log[j].op, log[j].found, log[j].outcome)
  }

  /** Or was one that may fail. */
  ghost predicate NoFaults(x: Target, log: seq<Entry>, n: nat, m: nat)
    requires m <= |log|
  {
    forall j :: n <= j < m ==> Succeeded(log[j].op, log[j].found, log[j].outcome) || MayFail(x, log[j].op, log[j].mode.excuse)
  }

  lemma {:induction false} SameTally(x: Target, initial: Store, log: seq<Entry>, n: nat, m: nat)
    requires HistoryOk(x, initial, log) && n <= m <= |log|
    ensures TallyAt(log, n).failed == TallyAt(log, m).failed ==> AllSucceed(log, n, m)
    ensures TallyAt(log, n).faults == TallyAt(log, m).faults ==> NoFaults(x, log, n, m)
  {
    if n < m {
      SameTally(x, initial, log, n, m - 1);
      TallyGrows(x, initial, log, n, m - 1);
      TallyStep(x, initial, log, m - 1);
    }
  }

  lemma {:induction false} PhasesGrow(x: Target, initial: Store, log: seq<Entry>, n: nat, m: nat)
    requires HistoryOk(x, initial, log) && n <= m < |log|
    ensures log[n].mode.pass <= log[m].mode.pass
    ensures log[n].mode.pass == log[m].mode.pass ==> forall j :: n <= j <= m ==> log[j].mode == log[n].mode
  {
    if n < m {
      PhasesGrow(x, initial, log, n, m - 1);
      assert EntryOk(x, initial, log, m);
    }
  }

  /** Whether a deletion pass had begun by the n-th state. */
  predicate TornDown(log: seq<Entry>, n: nat)
    requires n <= |log|
  {
    n > 0 && log[n - 1].mode.teardown
  }

  // ------------------------------------------------- the storage key

  ghost predicate KeyIsHeld(x: Target, s: Store) {
    x.storageSecret in s && IsHeld(s[x.storageSecret])
  }

  /** The storage secret is there, held by the finalizer, if instances have one. */
  ghost predicate KeyIsReady(x: Target, s: Store) {
    x.encrypted ==> KeyIsHeld(x, s)
  }

  /** A Zalando resource never exists without it. */
  ghost predicate ZalandoHasKey(x: Target, s: Store) {
    HasZalando(x, s) ==> KeyIsReady(x, s)
  }

  lemma InterferedKeepsKey(x: Target, s: Store, t: Store)
    requires Interfered(x, s, t) && ZalandoHasKey(x, s)
    ensures ZalandoHasKey(x, t)
  {
    NoNewZalando(x, s, t);
  }

  lemma CallKeepsKey(x: Target, log: seq<Entry>, s: Store, op: Op, mode: Mode)
    requires Allowed(x, log, s, op, mode) && ZalandoHasKey(x, s)
    ensures ZalandoHasKey(x, Effect(op, s))
  {
    var t := Effect(op, s);
    if HasZalando(x, t) {
      var k :| k in t && IsZalando(x, k);
      assert k in s || op == Op.Create(k, t[k]);
      assert k in s ==> HasZalando(x, s);
    }
  }

  lemma StepKeepsKey(x: Target, initial: Store, log: seq<Entry>, n: nat)
    requires HistoryOk(x, initial, log) && n < |log| && ZalandoHasKey(x, StateAt(initial, log, n))
    ensures ZalandoHasKey(x, log[n].found) && ZalandoHasKey(x, StateAt(initial, log, n + 1))
  {
    OneStep(x, initial, log, n);
    InterferedKeepsKey(x, StateAt(initial, log, n), log[n].found);
    CallKeepsKey(x, log[..n], log[n].found, log[n].op, log[n].mode);
  }

  /** In every reachable state, and whatever a call finds, a Zalando resource has its held secret. */
  lemma {:induction false} ZalandoAlwaysHasKey(x: Target, initial: Store, log: seq<Entry>, n: nat)
    requires HistoryOk(x, initial, log) && n <= |log| && ZalandoHasKey(x, initial)
    ensures ZalandoHasKey(x, StateAt(initial, log, n))
    ensures n < |log| ==> ZalandoHasKey(x, log[n].found)
  {
    if n > 0 {
      ZalandoAlwaysHasKey(x, initial, log, n - 1);
      StepKeepsKey(x, initial, log, n - 1);
    }
    if n < |log| {
      StepKeepsKey(x, initial, log, n);
    }
  }

  ghost predicate KeyHeldIfPresent(x: Target, s: Store) {
    x.storageSecret in s ==> IsHeld(s[x.storageSecret])
  }

  lemma CallKeepsHold(x: Target, log: seq<Entry>, s: Store, op: Op, mode: Mode)
    requires Allowed(x, log, s, op, mode) && !mode.teardown && KeyHeldIfPresent(x, s)
    ensures KeyHeldIfPresent(x, Effect(op, s)) && (x.storageSecret in s ==> x.storageSecret in Effect(op, s))
  {
  }

  lemma StepKeepsHold(x: Target, initial: Store, log: seq<Entry>, n: nat)
    requires HistoryOk(x, initial, log) && n < |log| && !log[n].mode.teardown && KeyHeldIfPresent(x, StateAt(initial, log, n))
    ensures var s, t, k := StateAt(initial, log, n), StateAt(initial, log, n + 1), x.storageSecret;
            KeyHeldIfPresent(x, t) && (k in s ==> k in t)
  {
    OneStep(x, initial, log, n);
    CallKeepsHold(x, log[..n], log[n].found, log[n].op, log[n].mode);
  }

  lemma CallKeepsPassphrase(x: Target, log: seq<Entry>, s: Store, op: Op, mode: Mode)
    requires Allowed(x, log, s, op, mode)
    ensures var t, k := Effect(op, s), x.storageSecret;
            && (k in s && k in t && s[k].StorageKey? ==> t[k].StorageKey? && t[k].passphrase == s[k].passphrase)
            && (k in t && k !in s ==> !mode.teardown)
  {
  }

  lemma StepKeepsPassphrase(x: Target, initial: Store, log: seq<Entry>, n: nat)
    requires HistoryOk(x, initial, log) && n < |log|
    ensures var s, t, k := StateAt(initial, log, n), StateAt(initial, log, n + 1), x.storageSecret;
            && ((log[n].mode.teardown || KeyHeldIfPresent(x, s)) && k in s && k in t && s[k].StorageKey? ==>
                  t[k].StorageKey? && t[k].passphrase == s[k].passphrase)
            && (log[n].mode.teardown && k in t ==> k in s)
  {
    OneStep(x, initial, log, n);
    CallKeepsPassphrase(x, log[..n], log[n].found, log[n].op, log[n].mode);
  }

  /** Until a deletion pass begins, a storage secret that exists is held. */
  lemma {:induction false} HeldUntilTeardown(x: Target, initial: Store, log: seq<Entry>, n: nat)
    requires HistoryOk(x, initial, log) && n <= |log| && KeyHeldIfPresent(x, initial) && !TornDown(log, n)
    ensures KeyHeldIfPresent(x, StateAt(initial, log, n))
  {
    if n > 0 {
      if n > 1 {
        TeardownStep(x, initial, log, n - 1);
      }
      HeldUntilTeardown(x, initial, log, n - 1);
      StepKeepsHold(x, initial, log, n - 1);
    }
  }

  /** The passphrase never changes: wherever the secret exists it holds the value first written, and it
      goes away only once a deletion pass has begun, never to be made again. */
  lemma {:induction false} KeyIsWrittenOnce(x: Target, initial: Store, log: seq<Entry>, n: nat, m: nat)
    requires HistoryOk(x, initial, log) && n <= m <= |log| && KeyHeldIfPresent(x, initial)
    requires var s := StateAt(initial, log, n); x.storageSecret in s && s[x.storageSecret].StorageKey?
    ensures var s, t, k := StateAt(initial, log, n), StateAt(initial, log, m), x.storageSecret;
            && (k in t ==> t[k].StorageKey? && t[k].passphrase == s[k].passphrase)
            && (k !in t ==> TornDown(log, m))
  {
    if n < m {
      KeyIsWrittenOnce(x, initial, log, n, m - 1);
      StepKeepsPassphrase(x, initial, log, m - 1);
      if TornDown(log, m - 1) {
        TeardownStep(x, initial, log, m - 1);
      } else {
        HeldUntilTeardown(x, initial, log, m - 1);
        if !log[m - 1].mode.teardown {
          StepKeepsHold(x, initial, log, m - 1);
        }
      }
    }
  }

  // ------------------------------------------------- initdb

  lemma CallKeepsMap(x: Target, log: seq<Entry>, s: Store, op: Op, mode: Mode)
    requires Allowed(x, log, s, op, mode)
    ensures var t, k := Effect(op, s), x.initMap;
            && (k in s && k in t ==> t[k] == s[k])
            && (k in s && k !in t ==> mode.teardown)
            && (k in t && k !in s ==> !mode.teardown)
  {
  }

  lemma StepKeepsMap(x: Target, initial: Store, log: seq<Entry>, n: nat)
    requires HistoryOk(x, initial, log) && n < |log|
    ensures var s, t, k := StateAt(initial, log, n), StateAt(initial, log, n + 1), x.initMap;
            && (k in s && k in t ==> t[k] == s[k])
            && (k in s && k !in t ==> log[n].mode.teardown)
            && (k in t && k !in s ==> !log[n].mode.teardown)
            && (k in log[n].found <==> k in s)
  {
    OneStep(x, initial, log, n);
    CallKeepsMap(x, log[..n], log[n].found, log[n].op, log[n].mode);
  }

  /** The initdb map never changes once it exists, and goes away only after a deletion pass has begun. */
  lemma {:induction false} InitMapIsWrittenOnce(x: Target, initial: Store, log: seq<Entry>, n: nat, m: nat)
    requires HistoryOk(x, initial, log) && n <= m <= |log| && x.initMap in StateAt(initial, log, n)
    ensures var s, t, k := StateAt(initial, log, n), StateAt(initial, log, m), x.initMap;
            && (k in t ==> t[k] == s[k])
            && (k !in t ==> TornDown(log, m))
  {
    if n < m {
      InitMapIsWrittenOnce(x, initial, log, n, m - 1);
      StepKeepsMap(x, initial, log, m - 1);
      if TornDown(log, m - 1) {
        TeardownStep(x, initial, log, m - 1);
      }
    }
  }

  /** Over all runs the map is created at most once. */
  lemma MapIsMadeOnce(x: Target, initial: Store, log: seq<Entry>, i: nat, j: nat)
    requires HistoryOk(x, initial, log) && i < |log| && j < |log|
    requires Makes(log[i], x.initMap) && Makes(log[j], x.initMap)
    ensures i == j
  {
    if i < j {
      MapIsNotMadeAgain(x, initial, log, i, j);
    } else if j < i {
      MapIsNotMadeAgain(x, initial, log, j, i);
    }
  }

  lemma MapIsNotMadeAgain(x: Target, initial: Store, log: seq<Entry>, i: nat, j: nat)
    requires HistoryOk(x, initial, log) && i < j < |log| && Makes(log[i], x.initMap)
    ensures !Makes(log[j], x.initMap)
  {
    if Makes(log[j], x.initMap) {
      StepKeepsMap(x, initial, log, j);
      InitMapIsWrittenOnce(x, initial, log, i + 1, j);
      TeardownStep(x, initial, log, j);
    }
  }

  /** The job is created right after the map was, by the same pass. */
  lemma JobFollowsMap(x: Target, initial: Store, log: seq<Entry>, i: nat)
    requires HistoryOk(x, initial, log) && i < |log| && Makes(log[i], x.initJob)
    ensures i >= 2 && Makes(log[i - 2], x.initMap) && log[i - 2].outcome == Done && log[i - 1].op == Read(x.initJob)
    ensures log[i - 2].mode == log[i].mode && log[i].mode.newDatabase && !log[i].mode.teardown
  {
    CallIsAllowed(x, initial, log, i);
  }

  /** At most one initdb job is ever created. */
  lemma JobIsMadeOnce(x: Target, initial: Store, log: seq<Entry>, i: nat, j: nat)
    requires HistoryOk(x, initial, log) && i < |log| && j < |log|
    requires Makes(log[i], x.initJob) && Makes(log[j], x.initJob)
    ensures i == j
  {
    JobFollowsMap(x, initial, log, i);
    JobFollowsMap(x, initial, log, j);
    MapIsMadeOnce(x, initial, log, i - 2, j - 2);
  }

  /** Once the map is created, no call creates the job but the second one after it, and that one only if
      the creation of the map was answered and the pass is one over a new database. */
  lemma JobIsLost(x: Target, initial: Store, log: seq<Entry>, m: nat, j: nat)
    requires HistoryOk(x, initial, log) && m < |log| && j < |log|
    requires Makes(log[m], x.initMap) && (j != m + 2 || log[m].outcome != Done || !log[m].mode.newDatabase)
    ensures !Makes(log[j], x.initJob)
  {
    if Makes(log[j], x.initJob) {
      JobFollowsMap(x, initial, log, j);
      MapIsMadeOnce(x, initial, log, m, j - 2);
    }
  }

  /** Neither the map nor the job comes into being but by a call of the controller. */
  lemma NobodyElseMakes(x: Target, initial: Store, log: seq<Entry>, n: nat, k: Key)
    requires HistoryOk(x, initial, log) && n < |log| && (k == x.initMap || k == x.initJob) && k !in StateAt(initial, log, n)
    ensures k !in log[n].found
    ensures k in StateAt(initial, log, n + 1) <==> Makes(log[n], k)
  {
    OneStep(x, initial, log, n);
  }

  lemma {:induction false} JobComesByACall(x: Target, initial: Store, log: seq<Entry>, n: nat, m: nat)
    requires HistoryOk(x, initial, log) && n <= m <= |log| && x.initJob !in StateAt(initial, log, n)
    requires forall j :: n <= j < m ==> !Makes(log[j], x.initJob)
    ensures x.initJob !in StateAt(initial, log, m)
  {
    if n < m {
      JobComesByACall(x, initial, log, n, m - 1);
      NobodyElseMakes(x, initial, log, m - 1, x.initJob);
    }
  }

  /** What became of the job two calls after the map decides whether there ever is one. */
  lemma JobIsDecided(x: Target, initial: Store, log: seq<Entry>, m: nat)
    requires HistoryOk(x, initial, log) && m < |log| && Makes(log[m], x.initMap)
    ensures (exists j :: 0 <= j < |log| && Makes(log[j], x.initJob)) <==>
      log[m].mode.newDatabase && log[m].outcome == Done && m + 2 < |log| && Makes(log[m + 2], x.initJob)
  {
    forall j | 0 <= j < |log| && Makes(log[j], x.initJob)
      ensures j == m + 2 && log[m].mode.newDatabase && log[m].outcome == Done
    {
      if j != m + 2 || log[m].outcome != Done || !log[m].mode.newDatabase {
        JobIsLost(x, initial, log, m, j);
      }
    }
  }

  // ------------------------------------------------- role bindings

  ghost predicate GoodBindings(s: Store) {
    forall k :: k in s && k.kind == ClusterRoleBinding ==> GoodBinding(s[k])
  }

  lemma InterferedKeepsBindings(x: Target, s: Store, t: Store)
    requires Interfered(x, s, t) && GoodBindings(s)
    ensures GoodBindings(t)
  {
    forall k | k in t && k.kind == ClusterRoleBinding
      ensures GoodBinding(t[k])
    {
      assert k in s && t[k] == s[k];
    }
  }

  lemma CallKeepsBindings(x: Target, log: seq<Entry>, s: Store, op: Op, mode: Mode)
    requires Allowed(x, log, s, op, mode) && GoodBindings(s)
    ensures GoodBindings(Effect(op, s))
  {
    forall k | k in Effect(op, s) && k.kind == ClusterRoleBinding
      ensures GoodBinding(Effect(op, s)[k])
    {
      assert k in s ==> GoodBinding(s[k]);
    }
  }

  lemma StepKeepsBindings(x: Target, initial: Store, log: seq<Entry>, n: nat)
    requires HistoryOk(x, initial, log) && n < |log| && GoodBindings(StateAt(initial, log, n))
    ensures GoodBindings(StateAt(initial, log, n + 1))
  {
    OneStep(x, initial, log, n);
    InterferedKeepsBindings(x, StateAt(initial, log, n), log[n].found);
    CallKeepsBindings(x, log[..n], log[n].found, log[n].op, log[n].mode);
  }

  /** Over any sequence of installs, uninstalls and everything else, every role binding names at most
      one service account per namespace. */
  lemma {:induction false} BindingsStayGood(x: Target, initial: Store, log: seq<Entry>, n: nat)
    requires HistoryOk(x, initial, log) && n <= |log| && GoodBindings(initial)
    ensures GoodBindings(StateAt(initial, log, n))
  {
    if n > 0 {
      BindingsStayGood(x, initial, log, n - 1);
      StepKeepsBindings(x, initial, log, n - 1);
    }
  }

  // ------------------------------------------------- deletion

  lemma CallMakesNothing(x: Target, log: seq<Entry>, s: Store, op: Op, mode: Mode)
    requires Allowed(x, log, s, op, mode) && mode.teardown
    ensures NoNewcomers(x, s, Effect(op, s))
  {
  }

  lemma StepMakesNothing(x: Target, initial: Store, log: seq<Entry>, n: nat)
    requires HistoryOk(x, initial, log) && n < |log| && log[n].mode.teardown
    ensures NoNewcomers(x, StateAt(initial, log, n), StateAt(initial, log, n + 1))
  {
    OneStep(x, initial, log, n);
    CallMakesNothing(x, log[..n], log[n].found, log[n].op, log[n].mode);
    assert NoNewcomers(x, log[n].found, log[n].after);
    NoNewcomersIsTransitive(x, StateAt(initial, log, n), log[n].found, log[n].after);
  }

  lemma NoNewcomersIsTransitive(x: Target, s: Store, t: Store, u: Store)
    requires NoNewcomers(x, s, t) && NoNewcomers(x, t, u)
    ensures NoNewcomers(x, s, u)
  {
    NoNewZalando(x, s, t);
  }

  /** Once a deletion pass has begun, nothing of ours comes back, and nothing derived without a Zalando
      resource to derive it from. */
  lemma {:induction false} NothingComesBack(x: Target, initial: Store, log: seq<Entry>, n: nat, m: nat)
    requires HistoryOk(x, initial, log) && n <= m <= |log|
    requires n < m ==> log[n].mode.teardown
    ensures NoNewcomers(x, StateAt(initial, log, n), StateAt(initial, log, m))
  {
    if n < m {
      NothingComesBack(x, initial, log, n, m - 1);
      TeardownStays(x, initial, log, n, m - 1);
      StepMakesNothing(x, initial, log, m - 1);
      NoNewcomersIsTransitive(x, StateAt(initial, log, n), StateAt(initial, log, m - 1), StateAt(initial, log, m));
    }
  }

  predicate Finalized(x: Target, s: Store) {
    x.instance in s && s[x.instance].Instance? && PostgresFinalizer in s[x.instance].finalizers
  }

  lemma OthersKeepFinalizer(x: Target, s: Store, t: Store)
    requires Interfered(x, s, t)
    ensures Finalized(x, t) == Finalized(x, s)
  {
  }

  lemma OnlyTheLastCallUnfinalizes(x: Target, log: seq<Entry>, s: Store, op: Op, mode: Mode)
    requires Allowed(x, log, s, op, mode) && Finalized(x, s) && !Finalized(x, Effect(op, s))
    ensures op.Update? && op.key == x.instance && mode.teardown && AllGone(x, s)
  {
  }

  lemma StepUnfinalizes(x: Target, initial: Store, log: seq<Entry>, n: nat)
    requires HistoryOk(x, initial, log) && n < |log|
    requires Finalized(x, StateAt(initial, log, n)) && !Finalized(x, StateAt(initial, log, n + 1))
    ensures log[n].op.Update? && log[n].op.key == x.instance && log[n].mode.teardown
    ensures Finalized(x, log[n].found) && AllGone(x, log[n].found)
  {
    OneStep(x, initial, log, n);
    OthersKeepFinalizer(x, StateAt(initial, log, n), log[n].found);
    OnlyTheLastCallUnfinalizes(x, log[..n], log[n].found, log[n].op, log[n].mode);
  }

  /** Deletion safety: in whatever run, with calls failing and being retried at will, if the instance
      has lost its finalizer, then the call that took it found the main ingress policy, both load
      balancers, the exporter service, the Zalando resources, the StatefulSets, the cluster service and
      the passwords secret all gone. */
  lemma {:induction false} FinalizerGoesLast(x: Target, initial: Store, log: seq<Entry>, n: nat, m: nat) returns (i: nat)
    requires HistoryOk(x, initial, log) && n <= m <= |log|
    requires Finalized(x, StateAt(initial, log, n)) && !Finalized(x, StateAt(initial, log, m))
    ensures n <= i < m && log[i].op.Update? && log[i].op.key == x.instance && log[i].mode.teardown
    ensures Finalized(x, log[i].found) && AllGone(x, log[i].found)
  {
    if Finalized(x, StateAt(initial, log, m - 1)) {
      i := m - 1;
      StepUnfinalizes(x, initial, log, i);
    } else {
      i := FinalizerGoesLast(x, initial, log, n, m - 1);
    }
  }

  predicate HasInstance(x: Target, s: Store) {
    x.instance in s && s[x.instance].Instance?
  }

  predicate IsMarked(x: Target, s: Store) {
    HasInstance(x, s) && s[x.instance].deleting
  }

  predicate IsAlive(x: Target, s: Store) {
    HasInstance(x, s) && !s[x.instance].deleting
  }

  lemma CallKeepsInstance(x: Target, log: seq<Entry>, s: Store, op: Op, mode: Mode)
    requires Allowed(x, log, s, op, mode)
    ensures HasInstance(x, Effect(op, s)) <==> HasInstance(x, s)
    ensures IsAlive(x, Effect(op, s)) ==> IsAlive(x, s)
  {
  }

  lemma StepBringsNoInstance(x: Target, initial: Store, log: seq<Entry>, n: nat)
    requires HistoryOk(x, initial, log) && n < |log| && IsAlive(x, StateAt(initial, log, n + 1))
    ensures IsAlive(x, StateAt(initial, log, n))
  {
    OneStep(x, initial, log, n);
    CallKeepsInstance(x, log[..n], log[n].found, log[n].op, log[n].mode);
  }

  /** An instance that is not being deleted has not been so from the start: nobody creates one or takes
      the deletion mark away. */
  lemma {:induction false} AliveFromTheStart(x: Target, initial: Store, log: seq<Entry>, n: nat)
    requires HistoryOk(x, initial, log) && n <= |log| && IsAlive(x, StateAt(initial, log, n))
    ensures IsAlive(x, initial)
  {
    if n > 0 {
      StepBringsNoInstance(x, initial, log, n - 1);
      AliveFromTheStart(x, initial, log, n - 1);
    }
  }

  lemma StepKeepsInstance(x: Target, initial: Store, log: seq<Entry>, n: nat)
    requires HistoryOk(x, initial, log) && n < |log| && HasInstance(x, StateAt(initial, log, n))
    ensures HasInstance(x, StateAt(initial, log, n + 1))
  {
    OneStep(x, initial, log, n);
    CallKeepsInstance(x, log[..n], log[n].found, log[n].op, log[n].mode);
  }

  lemma {:induction false} InstanceStays(x: Target, initial: Store, log: seq<Entry>, n: nat, m: nat)
    requires HistoryOk(x, initial, log) && n <= m <= |log| && HasInstance(x, StateAt(initial, log, n))
    ensures HasInstance(x, StateAt(initial, log, m))
  {
    if n < m {
      InstanceStays(x, initial, log, n, m - 1);
      StepKeepsInstance(x, initial, log, m - 1);
    }
  }

  /** Until a deletion pass begins, the storage secret stays held once it is. */
  lemma KeyStaysHeld(x: Target, initial: Store, log: seq<Entry>, n: nat, m: nat)
    requires HistoryOk(x, initial, log) && n <= m <= |log| && KeyHeldIfPresent(x, initial)
    requires KeyIsHeld(x, StateAt(initial, log, n)) && !TornDown(log, m)
    ensures KeyIsHeld(x, StateAt(initial, log, m))
  {
    KeyIsWrittenOnce(x, initial, log, n, m);
    HeldUntilTeardown(x, initial, log, m);
  }

  // ------------------------------------------------- what is gone stays gone

  /** Under a deletion pass nothing of ours comes back from one state to a later one. */
  lemma NoneReturns(c: Cluster, log: seq<Entry>, s: Store)
    requires c.Valid() && c.mode.teardown && c.begun <= |log| && log <= c.log && s == StateAt(c.initial, log, |log|)
    ensures NoNewcomers(c.x, s, c.objects)
  {
    assert c.log[..|log|] == log;
    if |log| < |c.log| {
      TeardownStays(c.x, c.initial, c.log, c.begun, |log|);
    }
    NothingComesBack(c.x, c.initial, c.log, |log|, |c.log|);
  }
}
