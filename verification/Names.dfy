/** The custom resource `Postgres` and the names derived from it. */
module Names {
  import opened Kube

  /** `PostgresConnection`: the remote instance this one is linked to. */
  datatype Connection = Connection(
    postgresID: string,
    secretName: string,
    ip: string,
    port: int,
    synchronous: bool,
    primary: bool)

  /** The fields of `Postgres` that the modelled code reads. Fields that may be nil are options. */
  datatype Postgres = Postgres(
    namespace: string,
    name: string,
    projectID: string,
    tenant: string,
    description: string,
    sourceRanges: Option<seq<string>>,
    connection: Option<Connection>,
    restore: Option<string>,
    dedicatedIP: Option<string>,
    dedicatedPort: Option<int32>,
    disableLoadBalancers: Option<bool>)
  {
    predicate IsPrimaryOrStandalone() {
      connection.None? || connection.value.primary
    }

    predicate IsReplicationTarget() {
      connection.Some? && !connection.value.primary
    }

    predicate EnableSharedSvcLB(forceSharedIP: bool) {
      forceSharedIP || dedicatedIP.None? || dedicatedIP.value == ""
    }

    predicate EnableDedicatedSvcLB() {
      dedicatedIP.Some? && dedicatedIP.value != ""
    }
  }

  // Characters (ASCII only, as in the regular expressions of the source).

  predicate IsUpper(c: char) { 'A' <= c <= 'Z' }
  predicate IsLower(c: char) { 'a' <= c <= 'z' }
  predicate IsDigit(c: char) { '0' <= c <= '9' }
  predicate IsAlnum(c: char) { IsUpper(c) || IsLower(c) || IsDigit(c) }

  function LowerChar(c: char): char {
    if IsUpper(c) then c - 'A' + 'a' else c
  }

  /** Removes everything matched by `[^a-zA-Z0-9]+`. */
  function Strip(s: string): (r: string)
    ensures forall i :: 0 <= i < |r| ==> IsAlnum(r[i])
  {
    if s == "" then "" else (if IsAlnum(s[0]) then [s[0]] else []) + Strip(s[1..])
  }

  function Lower(s: string): (r: string)
    ensures |r| == |s| && forall i :: 0 <= i < |s| ==> r[i] == LowerChar(s[i])
  {
    if s == "" then "" else [LowerChar(s[0])] + Lower(s[1..])
  }

  function Take(s: string, n: nat): (r: string)
    ensures |r| <= n && |r| <= |s| && r == s[..|r|]
  {
    if |s| > n then s[..n] else s
  }

  const TEAM_ID_PREFIX := "pg"

  function TeamID(p: Postgres): string {
    Take(Lower(TEAM_ID_PREFIX + Strip(p.tenant)), 16)
  }

  function DatabaseName(p: Postgres): string {
    Take(Take(Lower(Strip(p.description)), 15) + Strip(p.name), 20)
  }

  function ResourceName(p: Postgres): string {
    TeamID(p) + "-" + DatabaseName(p)
  }

  function ResourceNamespace(p: Postgres): string {
    Take(Strip(p.projectID), 16) + "-" + Take(Strip(p.name), 20)
  }

  function SharedServiceName(p: Postgres): string { ResourceName(p) + "-external" }
  function DedicatedServiceName(p: Postgres): string { ResourceName(p) + "-dedicated" }
  function StandbyIngressName(p: Postgres): string { ResourceName(p) + "-standby-ingress" }
  function StandbyEgressName(p: Postgres): string { ResourceName(p) + "-standby-egress" }
  function NetPolName(p: Postgres): string { ResourceName(p) + "-egress" }
  function PasswordsSecretName(p: Postgres): string { p.name + "-passwords" }

  // ---------------------------------------------------------------- properties

  /** A DNS label, section 2.3.1 of RFC 1035 (lower-case form). */
  ghost predicate IsDnsLabel(s: string) {
    && 1 <= |s| <= 63
    && IsLower(s[0])
    && (forall i :: 0 <= i < |s| ==> IsLower(s[i]) || IsDigit(s[i]) || s[i] == '-')
    && s[|s| - 1] != '-'
  }

  /** The part of the instance's own name that survives in the database name. */
  function KeptName(p: Postgres): string {
    DatabaseName(p)[|Take(Lower(Strip(p.description)), 15)|..]
  }

  ghost predicate HasUpper(s: string) {
    exists i :: 0 <= i < |s| && IsUpper(s[i])
  }

  /** The resource name is a DNS label exactly when something is left of description or name
      and no upper-case letter of the instance's name is kept; it never exceeds 37 characters. */
  lemma ResourceNameIsDnsLabel(p: Postgres)
    ensures |ResourceName(p)| <= 37
    ensures IsDnsLabel(ResourceName(p)) <==> Strip(p.description) + Strip(p.name) != "" && !HasUpper(KeptName(p))
  {
    var prefix := Take(Lower(Strip(p.description)), 15);
    DatabaseParts(p, prefix);
    TeamIDShape(p);
    DnsLabelOfParts(TeamID(p), prefix, KeptName(p));
    assert ResourceName(p) == TeamID(p) + "-" + (prefix + KeptName(p));
  }

  lemma DatabaseParts(p: Postgres, prefix: string)
    requires prefix == Take(Lower(Strip(p.description)), 15)
    ensures DatabaseName(p) == prefix + KeptName(p) && |prefix| + |KeptName(p)| <= 20 && AllLowerAlnum(prefix)
    ensures forall i :: 0 <= i < |KeptName(p)| ==> IsAlnum(KeptName(p)[i])
    ensures prefix + KeptName(p) != "" <==> Strip(p.description) + Strip(p.name) != ""
  {
    NameIsKept(p);
    assert forall i :: 0 <= i < |KeptName(p)| ==> KeptName(p)[i] == Strip(p.name)[i];
    assert prefix == "" <==> Strip(p.description) == "";
  }

  ghost predicate AllLowerAlnum(s: string) {
    forall i :: 0 <= i < |s| ==> IsLower(s[i]) || IsDigit(s[i])
  }

  lemma TeamIDShape(p: Postgres)
    ensures AllLowerAlnum(TeamID(p)) && 1 <= |TeamID(p)| <= 16 && IsLower(TeamID(p)[0])
  {
    var raw := TEAM_ID_PREFIX + Strip(p.tenant);
    assert raw[0] == 'p' && forall i :: 0 <= i < |raw| ==> IsAlnum(raw[i]);
  }

  lemma DnsLabelOfParts(t: string, prefix: string, kept: string)
    requires AllLowerAlnum(t) && 1 <= |t| <= 16 && IsLower(t[0])
    requires AllLowerAlnum(prefix) && |prefix| + |kept| <= 20
    requires forall i :: 0 <= i < |kept| ==> IsAlnum(kept[i])
    ensures IsDnsLabel(t + "-" + (prefix + kept)) <==> prefix + kept != "" && !HasUpper(kept)
  {
    var r := t + "-" + (prefix + kept);
    var d := |t| + 1 + |prefix|;
    assert r[0] == t[0] && r[|t|] == '-';
    assert forall i :: 0 <= i < |t| ==> r[i] == t[i];
    assert forall i :: 0 <= i < |prefix| ==> r[|t| + 1 + i] == prefix[i];
    assert forall i :: 0 <= i < |kept| ==> r[d + i] == kept[i];
    forall i | 0 <= i < |r| && !HasUpper(kept)
      ensures IsLower(r[i]) || IsDigit(r[i]) || r[i] == '-'
    {
      assert r[i] == if i < |t| then t[i] else if i == |t| then '-' else
                     if i < d then prefix[i - |t| - 1] else kept[i - d];
    }
    if HasUpper(kept) {
      var i :| 0 <= i < |kept| && IsUpper(kept[i]);
      assert IsUpper(r[d + i]);
    }
  }

  /** At least `min(5, length)` leading characters of the stripped name are kept, in place. */
  lemma NameIsKept(p: Postgres)
    ensures KeptName(p) <= Strip(p.name)
    ensures |KeptName(p)| >= 5 || KeptName(p) == Strip(p.name)
  {
    var prefix := Take(Lower(Strip(p.description)), 15);
    assert DatabaseName(p) <= prefix + Strip(p.name);
  }

  /** The parts of a resource name: the team identifier is "pg" with the tenant's lower-case characters, cut at 16,
      and the database name begins with up to 15 of the description's. */
  lemma PartsAreKept(p: Postgres)
    ensures TeamID(p) <= Lower("pg" + Strip(p.tenant)) && (|TeamID(p)| == 16 || TeamID(p) == Lower("pg" + Strip(p.tenant)))
    ensures DatabaseName(p)[..|DatabaseName(p)| - |KeptName(p)|] <= Lower(Strip(p.description))
    ensures |DatabaseName(p)| - |KeptName(p)| == 15 || DatabaseName(p)[..|DatabaseName(p)| - |KeptName(p)|] == Lower(Strip(p.description))
    ensures ResourceName(p) == TeamID(p) + "-" + DatabaseName(p)
  {
    var prefix := Take(Lower(Strip(p.description)), 15);
    assert DatabaseName(p)[..|DatabaseName(p)| - |KeptName(p)|] == prefix;
  }

  /** Two instances share a namespace exactly when both of its parts agree. */
  lemma NamespaceIsInjective(p: Postgres, q: Postgres)
    ensures ResourceNamespace(p) == ResourceNamespace(q) <==>
      && Take(Strip(p.projectID), 16) == Take(Strip(q.projectID), 16)
      && Take(Strip(p.name), 20) == Take(Strip(q.name), 20)
  {
    var a, b := Take(Strip(p.projectID), 16), Take(Strip(p.name), 20);
    var c, d := Take(Strip(q.projectID), 16), Take(Strip(q.name), 20);
    if a + "-" + b == c + "-" + d {
      SplitAtDash(a, b, c, d);
    }
  }

  lemma SplitAtDash(a: string, b: string, c: string, d: string)
    requires a + "-" + b == c + "-" + d
    requires '-' !in a && '-' !in b && '-' !in c && '-' !in d
    ensures a == c && b == d
  {
    var s, t := a + "-" + b, c + "-" + d;
    assert s[|a|] == '-' && t[|c|] == '-';
    assert forall i :: 0 <= i < |a| ==> s[i] == a[i];
    assert forall i :: 0 <= i < |c| ==> t[i] == c[i];
    assert a == s[..|a|] && c == t[..|c|];
    assert b == s[|a| + 1..] && d == t[|c| + 1..];
  }

  /** Every name derived from the resource name differs from the fixed names of the code, which all
      begin with "po" or "st". */
  lemma DerivedNamesAreNotFixed(p: Postgres, suffix: string)
    ensures |ResourceName(p)| >= 3 && (ResourceName(p) + suffix)[..2] == TEAM_ID_PREFIX
  {
    var raw := TEAM_ID_PREFIX + Strip(p.tenant);
    assert raw[0] == 'p' && raw[1] == 'g';
    var t := TeamID(p);
    assert |t| >= 2 && t[0] == 'p' && t[1] == 'g';
    assert (ResourceName(p) + suffix)[..2] == [t[0], t[1]];
  }
}
