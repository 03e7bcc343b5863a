/** The check of Patroni's replication configuration: read it, compare it with the wanted role, patch
    it at most once, and report whether to come back. */
module Replication {
  import opened Kube
  import opened Names
  import opened Json
  import opened PatroniConfig

  /** Everything one check learns from outside. Pod lists are addresses, `None` when the query fails.
      `standby(0)` is the check's own lookup of the connected instance, `standby(1 + i)` the one that
      the i-th patch may make; `patch(i)` is how the i-th patch ends. */
  datatype Env = Env(
    leaders: Option<seq<string>>,
    pods: Option<seq<string>>,
    get: Outcome,
    standby: nat -> Option<Postgres>,
    patch: nat -> Outcome)

  const BASEBACKUP := "basebackup_fast_xlog"

  function NameOf(s: Option<Postgres>): Option<string> {
    if s.Some? then Some(ResourceName(s.value)) else None
  }

  predicate IsSyncPrimary(p: Postgres) {
    p.connection.Some? && p.connection.value.primary && p.connection.value.synchronous
  }

  // ------------------------------------------------- the check, as a function

  /** The name that goes into a patch: looked up once more when the caller has none. */
  function PatchName(p: Postgres, name: Option<string>, e: Env, i: nat): Option<string> {
    if IsSyncPrimary(p) && name.None? then NameOf(e.standby(1 + i)) else name
  }

  function Request(p: Postgres, name: Option<string>): Config {
    if p.connection.None? then Config(None, None)
    else if p.connection.value.primary then Config(None, if p.connection.value.synchronous then name else None)
    else Config(Some(Standby(Some([BASEBACKUP]), p.connection.value.ip, p.connection.value.port, ResourceName(p))), None)
  }

  /** What one patch leaves behind: the document, the requests sent so far, no error. */
  datatype Patched = Patched(config: Json, sent: seq<Config>, ok: bool)

  function PatchPod(p: Postgres, podIP: string, name: Option<string>, e: Env, i: nat, config: Json, sent: seq<Config>): Patched {
    if podIP == "" then Patched(config, sent, false)
    else
      var n := PatchName(p, name, e, i);
      var r := Request(p, n);
      Patched(if e.patch(i) == Refused then config else MergePatch(config, Encode(r)),
              sent + [r],
              e.patch(i) == Done && !(p.connection.Some? && p.connection.value.synchronous && n.None?))
  }

  /** The patches through the first `n` pods of `pods`, one after the other; all pods share one document. */
  function PatchPods(p: Postgres, pods: seq<string>, n: nat, e: Env, config: Json, sent: seq<Config>): Patched
    requires n <= |pods|
  {
    if n == 0 then Patched(config, sent, true)
    else
      var before := PatchPods(p, pods, n - 1, e, config, sent);
      var r := PatchPod(p, pods[n - 1], None, e, n - 1, before.config, before.sent);
      Patched(r.config, r.sent, before.ok && r.ok)
  }

  datatype Checked = Checked(config: Json, sent: seq<Config>, requeue: bool, ok: bool)

  /** What the comparison asks for: nothing, to come back later, or a patch with this name. */
  datatype Verdict = UpToDate | WaitForRole | Fix(name: Option<string>)

  function Compare(p: Postgres, c: Config, standby: Option<Postgres>): Verdict
    requires p.connection.Some?
  {
    var conn := p.connection.value;
    if conn.primary then
      if c.standby.Some? then WaitForRole
      else if conn.synchronous then
        var name := NameOf(standby);
        if name.None? then Fix(None)
        else if c.syncNodes.None? || c.syncNodes.value != name.value then Fix(name)
        else UpToDate
      else if c.syncNodes.Some? then Fix(None)
      else UpToDate
    else if c.standby.None? then WaitForRole
    else if c.standby.value.methods.None? || c.standby.value.host != conn.ip || c.standby.value.port != conn.port
         || c.standby.value.applicationName != ResourceName(p) || c.syncNodes.Some? then Fix(None)
    else UpToDate
  }

  function Check(p: Postgres, e: Env, config: Json): Checked {
    if e.leaders.None? then Checked(config, [], true, false)
    else if |e.leaders.value| != 1 then
      if e.pods.None? || |e.pods.value| == 0 then Checked(config, [], true, false)
      else
        var r := PatchPods(p, e.pods.value, |e.pods.value|, e, config, []);
        Checked(r.config, r.sent, true, r.ok)
    else
      var leaderIP := e.leaders.value[0];
      if p.connection.None? then
        var r := PatchPod(p, leaderIP, None, e, 0, config, []);
        Checked(r.config, r.sent, false, r.ok)
      else if leaderIP == "" || e.get != Done || Decode(config).None? then Checked(config, [], true, false)
      else
        match Compare(p, Decode(config).value, e.standby(0))
        case UpToDate => Checked(config, [], false, true)
        case WaitForRole => Checked(config, [], true, true)
        case Fix(name) =>
          var r := PatchPod(p, leaderIP, name, e, 0, config, []);
          Checked(r.config, r.sent, true, r.ok)
  }

  // ------------------------------------------------- the check, as the controller performs it

  /** The configuration endpoint that all pods of one cluster share. */
  class Patroni {
    var config: Json
    var sent: seq<Config>

    constructor (config: Json)
      ensures this.config == config && sent == []
    {
      this.config, sent := config, [];
    }

    method Get(podIP: string, o: Outcome) returns (r: Result<Config>)
      ensures r.Ok? <==> podIP != "" && o == Done && Decode(config).Some?
      ensures r.Ok? ==> Some(r.value) == Decode(config)
    {
      if podIP == "" || o != Done || Decode(config).None? {
        return Err(Failed);
      }
      return Ok(Decode(config).value);
    }

    method Patch(request: Config, o: Outcome) returns (ok: bool)
      modifies this
      ensures config == if o == Refused then old(config) else MergePatch(old(config), Encode(request))
      ensures sent == old(sent) + [request]
      ensures ok <==> o == Done
    {
      sent := sent + [request];
      if o != Refused {
        config := MergePatch(config, Encode(request));
      }
      ok := o == Done;
    }
  }

  class Reconciler {
    const patroni: Patroni

    constructor (patroni: Patroni)
      ensures this.patroni == patroni
    {
      this.patroni := patroni;
    }

    method HttpPatchPatroni(p: Postgres, podIP: string, synchronousStandbyApplicationName: Option<string>, e: Env, i: nat)
      returns (ok: bool)
      modifies patroni
      ensures Patched(patroni.config, patroni.sent, ok) ==
              PatchPod(p, podIP, synchronousStandbyApplicationName, e, i, old(patroni.config), old(patroni.sent))
    {
      if podIP == "" {
        return false;
      }
      var name := synchronousStandbyApplicationName;
      var request := Config(None, None);
      if p.connection.None? {
        // the empty request
      } else if p.IsPrimaryOrStandalone() {
        if p.connection.value.synchronous {
          if name.None? {
            var s := e.standby(1 + i);
            name := if s.None? then None else Some(ResourceName(s.value));
          }
          request := request.(syncNodes := name);
        } else {
          request := request.(syncNodes := None);
        }
      } else {
        request := Config(
          Some(Standby(Some([BASEBACKUP]), p.connection.value.ip, p.connection.value.port, ResourceName(p))),
          None);
      }
      var performed := patroni.Patch(request, e.patch(i));
      if !performed {
        return false;
      }
      // the patch has been applied by now, whatever is reported
      if p.connection.Some? && p.IsPrimaryOrStandalone() && p.connection.value.synchronous && name.None? {
        return false;
      }
      if p.connection.Some? && p.connection.value.synchronous && name.None? {
        return false;
      }
      return true;
    }

    method UpdatePatroniReplicationConfigOnAllPods(p: Postgres, e: Env) returns (ok: bool)
      requires patroni.sent == []
      modifies patroni
      ensures e.pods.None? || |e.pods.value| == 0 ==> !ok && patroni.config == old(patroni.config) && patroni.sent == []
      ensures e.pods.Some? && |e.pods.value| > 0 ==>
        Patched(patroni.config, patroni.sent, ok) == PatchPods(p, e.pods.value, |e.pods.value|, e, old(patroni.config), [])
    {
      if e.pods.None? {
        return false;
      }
      var pods := e.pods.value;
      if |pods| == 0 {
        return false;
      }
      var lastErr := false;
      for i := 0 to |pods|
        invariant Patched(patroni.config, patroni.sent, !lastErr) == PatchPods(p, pods, i, e, old(patroni.config), [])
      {
        var patched := HttpPatchPatroni(p, pods[i], None, e, i);
        if !patched {
          lastErr := true;
        }
      }
      return !lastErr;
    }

    method CheckAndUpdatePatroniReplicationConfig(p: Postgres, e: Env) returns (requeue: bool, ok: bool)
      requires patroni.sent == []
      modifies patroni
      ensures Checked(patroni.config, patroni.sent, requeue, ok) == Check(p, e, old(patroni.config))
    {
      if e.leaders.None? {
        return true, false;
      }
      if |e.leaders.value| != 1 {
        ok := UpdatePatroniReplicationConfigOnAllPods(p, e);
        return true, ok;
      }
      var leaderIP := e.leaders.value[0];
      if p.connection.None? {
        ok := HttpPatchPatroni(p, leaderIP, None, e, 0);
        return false, ok;
      }
      var got := patroni.Get(leaderIP, e.get);
      if got.Err? {
        return true, false;
      }
      var resp := got.value;
      if p.IsPrimaryOrStandalone() {
        if resp.standby.Some? {
          return true, true;
        }
        if p.connection.value.synchronous {
          var s := e.standby(0);
          var name := if s.None? then None else Some(ResourceName(s.value));
          if name.None? {
            ok := HttpPatchPatroni(p, leaderIP, None, e, 0);
            return true, ok;
          } else if resp.syncNodes.None? || resp.syncNodes.value != name.value {
            ok := HttpPatchPatroni(p, leaderIP, name, e, 0);
            return true, ok;
          }
        } else {
          if resp.syncNodes.Some? {
            ok := HttpPatchPatroni(p, leaderIP, None, e, 0);
            return true, ok;
          }
        }
      } else {
        if resp.standby.None? {
          return true, true;
        }
        if resp.standby.value.methods.None? {
          ok := HttpPatchPatroni(p, leaderIP, None, e, 0);
          return true, ok;
        }
        if resp.standby.value.host != p.connection.value.ip {
          ok := HttpPatchPatroni(p, leaderIP, None, e, 0);
          return true, ok;
        }
        if resp.standby.value.port != p.connection.value.port {
          ok := HttpPatchPatroni(p, leaderIP, None, e, 0);
          return true, ok;
        }
        if resp.standby.value.applicationName != ResourceName(p) {
          ok := HttpPatchPatroni(p, leaderIP, None, e, 0);
          return true, ok;
        }
        if resp.syncNodes.Some? {
          ok := HttpPatchPatroni(p, leaderIP, None, e, 0);
          return true, ok;
        }
      }
      return false, true;
    }
  }
}

/** What the check guarantees over whole runs. */
module ReplicationRuns {
  import opened Kube
  import opened Names
  import opened Json
  import opened PatroniConfig
  import opened Replication

  // ------------------------------------------------- honest completion

  /** The configuration an instance is to have; `name` is the application name of the connected instance. */
  predicate Wanted(p: Postgres, name: Option<string>, c: Config) {
    if p.connection.None? then c == Config(None, None)
    else if p.connection.value.primary then
      c.standby.None? && c.syncNodes == if p.connection.value.synchronous then name else None
    else
      && c.standby.Some? && c.syncNodes.None?
      && c.standby.value.methods.Some?
      && c.standby.value.host == p.connection.value.ip
      && c.standby.value.port == p.connection.value.port
      && c.standby.value.applicationName == ResourceName(p)
  }

  /** A check that reports done without an error leaves a configuration that reads as wanted; a
      synchronous primary only gets there with the connected instance resolved. */
  lemma HonestCompletion(p: Postgres, e: Env, config: Json)
    requires !Check(p, e, config).requeue && Check(p, e, config).ok
    ensures Decode(Check(p, e, config).config).Some?
    ensures Wanted(p, NameOf(e.standby(0)), Decode(Check(p, e, config).config).value)
    ensures IsSyncPrimary(p) ==> e.standby(0).Some?
  {
    if p.connection.None? {
      PatchThenRead(config, Request(p, None));
    }
  }

  /** Reporting done is exact: with one reachable leader, a connection and a readable document, the check
      reports done if and only if the document already reads as wanted; then it sends nothing. */
  lemma DoneMeansWanted(p: Postgres, e: Env, config: Json)
    requires p.connection.Some? && e.leaders.Some? && |e.leaders.value| == 1 && e.leaders.value[0] != ""
    requires e.get == Done && Decode(config).Some?
    ensures !Check(p, e, config).requeue <==>
      Wanted(p, NameOf(e.standby(0)), Decode(config).value) && (IsSyncPrimary(p) ==> e.standby(0).Some?)
    ensures !Check(p, e, config).requeue ==>
      Check(p, e, config).ok && Check(p, e, config).sent == [] && Check(p, e, config).config == config
  {
  }

  /** Every lookup of the connected instance finds it under this name, or fails. */
  ghost predicate Resolves(e: Env, name: string) {
    forall n: nat :: e.standby(n).Some? ==> ResourceName(e.standby(n).value) == name
  }

  /** Every request of a synchronous primary names either nobody or the connected instance. */
  lemma SyncPrimaryNamesOnlyItsStandby(p: Postgres, e: Env, config: Json, name: string)
    requires IsSyncPrimary(p) && Resolves(e, name)
    ensures forall r :: r in Check(p, e, config).sent ==> r.standby.None? && r.syncNodes in {None, Some(name)}
    ensures e.leaders.Some? && |e.leaders.value| == 1 && e.standby(0).None? ==> Check(p, e, config).requeue
  {
    if e.leaders.Some? && |e.leaders.value| != 1 && e.pods.Some? {
      PodsNameOnlyTheStandby(p, e.pods.value, |e.pods.value|, e, config, name);
    }
  }

  lemma {:induction false} PodsNameOnlyTheStandby(p: Postgres, pods: seq<string>, n: nat, e: Env, config: Json, name: string)
    requires n <= |pods| && IsSyncPrimary(p) && Resolves(e, name)
    ensures forall r :: r in PatchPods(p, pods, n, e, config, []).sent ==> r.standby.None? && r.syncNodes in {None, Some(name)}
  {
    if n > 0 {
      PodsNameOnlyTheStandby(p, pods, n - 1, e, config, name);
    }
  }

  /** Every lookup of the connected instance finds it under this name. */
  ghost predicate AlwaysResolves(e: Env, name: string) {
    forall n: nat :: NameOf(e.standby(n)) == Some(name)
  }

  /** If the connected instance can be looked up, every request of a synchronous primary names it: also
      those over all pods, for which the check itself has not looked it up. */
  lemma SyncPrimaryNamesItsStandby(p: Postgres, e: Env, config: Json, name: string)
    requires IsSyncPrimary(p) && AlwaysResolves(e, name)
    ensures forall r :: r in Check(p, e, config).sent ==> r == Config(None, Some(name))
  {
    if e.leaders.Some? && |e.leaders.value| != 1 && e.pods.Some? {
      PodsNameTheStandby(p, e.pods.value, |e.pods.value|, e, config, name);
    }
  }

  lemma {:induction false} PodsNameTheStandby(p: Postgres, pods: seq<string>, n: nat, e: Env, config: Json, name: string)
    requires n <= |pods| && IsSyncPrimary(p) && AlwaysResolves(e, name)
    ensures forall r :: r in PatchPods(p, pods, n, e, config, []).sent ==> r == Config(None, Some(name))
  {
    if n > 0 {
      PodsNameTheStandby(p, pods, n - 1, e, config, name);
    }
  }

  /** Without a single leader: a check that reaches Patroni through one of the pods leaves a document that
      reads as wanted, whatever it was before and whatever kind of instance this is. */
  lemma AllPodsMakeItWanted(p: Postgres, e: Env, config: Json, name: string)
    requires e.leaders.Some? && |e.leaders.value| != 1 && e.pods.Some? && Reaches(e.pods.value, |e.pods.value|, e)
    requires IsSyncPrimary(p) ==> AlwaysResolves(e, name)
    ensures var after := Decode(Check(p, e, config).config); after.Some? && Wanted(p, Some(name), after.value)
  {
    PodsMakeItWanted(p, e.pods.value, |e.pods.value|, e, config, name);
  }

  lemma {:induction false} PodsMakeItWanted(p: Postgres, pods: seq<string>, n: nat, e: Env, config: Json, name: string)
    requires n <= |pods| && (IsSyncPrimary(p) ==> AlwaysResolves(e, name))
    ensures Reaches(pods, n, e) ==>
      var after := Decode(PatchPods(p, pods, n, e, config, []).config); after.Some? && Wanted(p, Some(name), after.value)
  {
    if n > 0 {
      PodsMakeItWanted(p, pods, n - 1, e, config, name);
      PodMakesItWanted(p, pods[n - 1], e, n - 1, PatchPods(p, pods, n - 1, e, config, []), name);
    }
  }

  lemma PodMakesItWanted(p: Postgres, podIP: string, e: Env, i: nat, before: Patched, name: string)
    requires IsSyncPrimary(p) ==> AlwaysResolves(e, name)
    ensures var r := PatchPod(p, podIP, None, e, i, before.config, before.sent);
            if podIP != "" && e.patch(i) != Refused then Decode(r.config).Some? && Wanted(p, Some(name), Decode(r.config).value)
            else r.config == before.config
  {
    PatchThenRead(before.config, Request(p, PatchName(p, None, e, i)));
  }

  /** The error about a missing application name, when these are the answers of the lookup by the check and
      of the one for the patch: only a synchronous primary looks the standby up at all. */
  predicate LacksName(p: Postgres, first: Option<Postgres>, second: Option<Postgres>) {
    && p.connection.Some? && p.connection.value.synchronous
    && (p.connection.value.primary ==> first.None? && second.None?)
  }

  /** The patch through pod `i` was answered, and nothing is missing. */
  predicate PodIsDone(p: Postgres, pods: seq<string>, e: Env, i: nat)
    requires i < |pods|
  {
    pods[i] != "" && e.patch(i) == Done && !LacksName(p, None, e.standby(1 + i))
  }

  lemma {:induction false} PodsOkExactly(p: Postgres, pods: seq<string>, n: nat, e: Env, config: Json)
    requires n <= |pods|
    ensures PatchPods(p, pods, n, e, config, []).ok <==> forall i :: 0 <= i < n ==> PodIsDone(p, pods, e, i)
  {
    if n > 0 {
      PodsOkExactly(p, pods, n - 1, e, config);
      assert PatchPods(p, pods, n, e, config, []).ok <==> PatchPods(p, pods, n - 1, e, config, []).ok && PodIsDone(p, pods, e, n - 1);
    }
  }

  /** Over all pods no error is reported if and only if every patch is answered and none lacks a name. */
  lemma AllPodsOkExactly(p: Postgres, e: Env, config: Json)
    requires e.leaders.Some? && |e.leaders.value| != 1
    ensures Check(p, e, config).ok <==>
      && e.pods.Some? && |e.pods.value| > 0
      && forall i :: 0 <= i < |e.pods.value| ==> PodIsDone(p, e.pods.value, e, i)
  {
    if e.pods.Some? {
      PodsOkExactly(p, e.pods.value, |e.pods.value|, e, config);
    }
  }

  /** Through the one leader: a check that patches reports an error if and only if its patch is not answered
      or lacks a name. */
  lemma LeaderOkExactly(p: Postgres, e: Env, config: Json)
    requires e.leaders.Some? && |e.leaders.value| == 1 && Check(p, e, config).sent != []
    ensures Check(p, e, config).ok <==> e.patch(0) == Done && !LacksName(p, e.standby(0), e.standby(1))
  {
  }

  /** Every request of a check is the instance's own: nothing without a connection, the standby's own source
      and name, nothing but the synchronous nodes for a primary. */
  lemma RequestsAreOwn(p: Postgres, e: Env, config: Json)
    ensures forall r :: r in Check(p, e, config).sent ==>
      if p.connection.None? then r == Config(None, None)
      else if p.connection.value.primary then r.standby.None? && (r.syncNodes.Some? ==> p.connection.value.synchronous)
      else r == Config(Some(Standby(Some(["basebackup_fast_xlog"]), p.connection.value.ip, p.connection.value.port, ResourceName(p))), None)
  {
    if e.leaders.Some? && |e.leaders.value| != 1 && e.pods.Some? {
      PodRequestsAreOwn(p, e.pods.value, |e.pods.value|, e, config);
    }
  }

  lemma {:induction false} PodRequestsAreOwn(p: Postgres, pods: seq<string>, n: nat, e: Env, config: Json)
    requires n <= |pods|
    ensures forall r :: r in PatchPods(p, pods, n, e, config, []).sent ==> exists name :: r == Request(p, name)
  {
    if n > 0 {
      PodRequestsAreOwn(p, pods, n - 1, e, config);
    }
  }

  /** What a check reports: it comes back unless it has patched the one leader of an instance without a
      connection or found everything as wanted. */
  lemma ComesBackExactly(p: Postgres, e: Env, config: Json)
    ensures !Check(p, e, config).requeue <==>
      && e.leaders.Some? && |e.leaders.value| == 1
      && (p.connection.Some? ==>
            && e.leaders.value[0] != "" && e.get == Done && Decode(config).Some?
            && Wanted(p, NameOf(e.standby(0)), Decode(config).value) && (IsSyncPrimary(p) ==> e.standby(0).Some?))
  {
  }

  /** A query that fails is an error. */
  lemma FailedQueriesAreErrors(p: Postgres, e: Env, config: Json)
    ensures e.leaders.None? ==> !Check(p, e, config).ok
    ensures e.leaders.Some? && |e.leaders.value| == 1 && Check(p, e, config).sent == [] ==>
      (Check(p, e, config).ok <==> p.connection.Some? && e.leaders.value[0] != "" && e.get == Done && Decode(config).Some?)
  {
  }

  // ------------------------------------------------- convergence

  /** One reachable leader, no patch refused, and a synchronous primary resolves its standby to `name`. */
  predicate Good(p: Postgres, e: Env, name: string) {
    && e.leaders.Some? && |e.leaders.value| == 1 && e.leaders.value[0] != ""
    && e.get == Done && e.patch(0) != Refused
    && (IsSyncPrimary(p) ==> NameOf(e.standby(0)) == Some(name))
  }

  /** In the good case a check patches exactly when the document is readable, has the right role and
      is not yet as wanted. After the patch it is as wanted, also when an error is reported. */
  lemma PatchesExactlyWhenNeeded(p: Postgres, e: Env, config: Json, name: string)
    requires p.connection.Some? && Good(p, e, name)
    ensures Check(p, e, config).sent != [] <==>
      && Decode(config).Some?
      && (HasStandby(config) <==> p.IsReplicationTarget())
      && !Wanted(p, Some(name), Decode(config).value)
    ensures Check(p, e, config).sent != [] ==>
      && |Check(p, e, config).sent| == 1
      && Decode(Check(p, e, config).config).Some?
      && Wanted(p, Some(name), Decode(Check(p, e, config).config).value)
    ensures Check(p, e, config).sent == [] ==> Check(p, e, config).config == config
  {
    var c := Decode(config);
    assert c.Some? ==> (HasStandby(config) <==> c.value.standby.Some?);
    if c.Some? {
      match Compare(p, c.value, e.standby(0))
      case Fix(n) => PatchThenRead(config, Request(p, PatchName(p, n, e, 0)));
      case _ =>
    }
  }

  /** A run of checks: `configs[i]` is the document that check `i` starts from. Between two checks only
      members may change that the code does not read. */
  ghost predicate IsRun(p: Postgres, es: seq<Env>, configs: seq<Json>) {
    && |configs| == |es|
    && forall i :: 0 < i < |es| ==> Decode(configs[i]) == Decode(Check(p, es[i - 1], configs[i - 1]).config)
  }

  /** From any readable document with the right role, at most the first check patches, and every later
      check reports done without patching. */
  lemma Convergence(p: Postgres, es: seq<Env>, configs: seq<Json>, name: string)
    requires p.connection.Some? && IsRun(p, es, configs) && |es| > 0
    requires forall i :: 0 <= i < |es| ==> Good(p, es[i], name)
    requires Decode(configs[0]).Some? && (HasStandby(configs[0]) <==> p.IsReplicationTarget())
    ensures |Check(p, es[0], configs[0]).sent| <= 1
    ensures forall i :: 0 < i < |es| ==>
      var r := Check(p, es[i], configs[i]); r.sent == [] && !r.requeue && r.ok
  {
    PatchesExactlyWhenNeeded(p, es[0], configs[0], name);
    forall i | 0 < i < |es|
      ensures var r := Check(p, es[i], configs[i]); r.sent == [] && !r.requeue && r.ok
    {
      StaysWanted(p, es, configs, name, i);
      DoneMeansWanted(p, es[i], configs[i]);
    }
  }

  lemma {:induction false} StaysWanted(p: Postgres, es: seq<Env>, configs: seq<Json>, name: string, i: nat)
    requires p.connection.Some? && IsRun(p, es, configs) && 0 < i < |es|
    requires forall j :: 0 <= j < |es| ==> Good(p, es[j], name)
    requires Decode(configs[0]).Some? && (HasStandby(configs[0]) <==> p.IsReplicationTarget())
    ensures Decode(configs[i]).Some? && Wanted(p, Some(name), Decode(configs[i]).value)
    decreases i
  {
    if i > 1 {
      StaysWanted(p, es, configs, name, i - 1);
      assert configs[i - 1].Obj? || configs[i - 1].Null?;
    }
    PatchesExactlyWhenNeeded(p, es[i - 1], configs[i - 1], name);
  }

  /** Without the right role, or with an unreadable document, no check ever patches: the run waits for
      the operator. Together with `Convergence` this is exact. */
  lemma NoProgressWithoutTheRole(p: Postgres, e: Env, config: Json, name: string)
    requires p.connection.Some? && Good(p, e, name)
    requires Decode(config).None? || (HasStandby(config) <==> !p.IsReplicationTarget())
    ensures var r := Check(p, e, config); r.sent == [] && r.config == config && r.requeue
  {
    PatchesExactlyWhenNeeded(p, e, config, name);
  }

  // ------------------------------------------------- role safety

  /** A check of some instance specification, or a change of the document by the operator. */
  datatype Event = CheckStep(p: Postgres, e: Env) | OperatorStep(config: Json)

  function Apply(ev: Event, config: Json): Json {
    match ev
    case CheckStep(p, e) => Check(p, e, config).config
    case OperatorStep(config') => config'
  }

  function Run(evs: seq<Event>, config: Json): Json
    decreases |evs|
  {
    if evs == [] then config else Run(evs[1..], Apply(evs[0], config))
  }

  /** The role after the run if only the operator's steps counted. */
  function RoleByOperator(evs: seq<Event>, role: bool): bool
    decreases |evs|
  {
    if evs == [] then role
    else RoleByOperator(evs[1..], if evs[0].OperatorStep? then HasStandby(evs[0].config) else role)
  }

  predicate IsOrdinary(ev: Event) {
    ev.CheckStep? ==> ev.p.connection.Some? && ev.e.leaders.Some? && |ev.e.leaders.value| == 1
  }

  /** A patch reaches Patroni through one of the first `n` pods. */
  predicate Reaches(pods: seq<string>, n: nat, e: Env)
    requires n <= |pods|
  {
    exists i :: 0 <= i < n && pods[i] != "" && e.patch(i) != Refused
  }

  lemma {:induction false} PodsSetTheRole(p: Postgres, pods: seq<string>, n: nat, e: Env, config: Json)
    requires n <= |pods|
    ensures var after := PatchPods(p, pods, n, e, config, []).config;
            if Reaches(pods, n, e) then HasStandby(after) <==> p.IsReplicationTarget() else after == config
  {
    if n > 0 {
      PodsSetTheRole(p, pods, n - 1, e, config);
      var before := PatchPods(p, pods, n - 1, e, config, []);
      PodSetsTheRole(p, pods[n - 1], None, e, n - 1, before.config, before.sent);
    }
  }

  lemma PodSetsTheRole(p: Postgres, podIP: string, name: Option<string>, e: Env, i: nat, config: Json, sent: seq<Config>)
    ensures var after := PatchPod(p, podIP, name, e, i, config, sent).config;
            if podIP != "" && e.patch(i) != Refused then HasStandby(after) <==> p.IsReplicationTarget() else after == config
  {
    PatchThenRead(config, Request(p, PatchName(p, name, e, i)));
  }

  /** Exactly when a check switches the role: it reaches Patroni without comparing first, because there
      is no connection or not exactly one leader, and the document has the other role. */
  lemma WhenACheckSwitchesTheRole(p: Postgres, e: Env, config: Json)
    ensures (HasStandby(Check(p, e, config).config) <==> !HasStandby(config)) <==>
      && (HasStandby(config) <==> !p.IsReplicationTarget())
      && e.leaders.Some?
      && (if |e.leaders.value| == 1 then p.connection.None? && Reaches(e.leaders.value, 1, e)
          else e.pods.Some? && Reaches(e.pods.value, |e.pods.value|, e))
  {
    if e.leaders.Some? {
      if |e.leaders.value| != 1 {
        if e.pods.Some? {
          PodsSetTheRole(p, e.pods.value, |e.pods.value|, e, config);
        }
      } else if p.connection.None? {
        PodSetsTheRole(p, e.leaders.value[0], None, e, 0, config, []);
      } else if Decode(config).Some? {
        match Compare(p, Decode(config).value, e.standby(0))
        case Fix(n) => PodSetsTheRole(p, e.leaders.value[0], n, e, 0, config, []);
        case _ =>
      }
    }
  }

  const STANDALONE := Postgres("", "db", "", "", "", None, None, None, None, None, None)
  const STANDBY_DOCUMENT := Obj(map[StandbyCluster := Obj(map[])])

  /** Both ways happen: a leader without a connection in the specification, and a primary without a leader,
      are promoted although the operator has made them standbys. */
  lemma ACheckCanSwitchTheRole(c: Connection)
    requires c.primary
    ensures var e := Env(Some(["leader"]), None, Done, n => None, n => Done);
            HasStandby(STANDBY_DOCUMENT) && !HasStandby(Check(STANDALONE, e, STANDBY_DOCUMENT).config)
    ensures var e := Env(Some([]), Some(["pod"]), Done, n => None, n => Done);
            !HasStandby(Check(STANDALONE.(connection := Some(c)), e, STANDBY_DOCUMENT).config)
  {
    var e1, e2 := Env(Some(["leader"]), None, Done, n => None, n => Done), Env(Some([]), Some(["pod"]), Done, n => None, n => Done);
    WhenACheckSwitchesTheRole(STANDALONE, e1, STANDBY_DOCUMENT);
    assert Reaches(["pod"], 1, e2) by {
      assert ["pod"][0] != "" && e2.patch(0) != Refused;
    }
    WhenACheckSwitchesTheRole(STANDALONE.(connection := Some(c)), e2, STANDBY_DOCUMENT);
  }

  /** In every interleaving of ordinary checks with operator steps the role is the one that the operator
      set last: no check ever switches it. */
  lemma {:induction false} OnlyTheOperatorSwitchesTheRole(evs: seq<Event>, config: Json)
    requires forall i :: 0 <= i < |evs| ==> IsOrdinary(evs[i])
    ensures HasStandby(Run(evs, config)) == RoleByOperator(evs, HasStandby(config))
    decreases |evs|
  {
    if evs != [] {
      if evs[0].CheckStep? {
        WhenACheckSwitchesTheRole(evs[0].p, evs[0].e, config);
        assert IsOrdinary(evs[0]);
      }
      OnlyTheOperatorSwitchesTheRole(evs[1..], Apply(evs[0], config));
    }
  }
}
