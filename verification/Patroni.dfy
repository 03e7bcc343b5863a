/** JSON documents and the merge rule by which Patroni changes its configuration. */
module Json {
  import opened Kube

  /** Member names: the ones the code knows, and all others. */
  datatype Field =
    | StandbyCluster | SynchronousNodesAdditional
    | CreateReplicaMethods | Host | Port | ApplicationName
    | Other(name: string)

  datatype Json =
    | Null
    | Bool(b: bool)
    | Num(n: int)
    | Str(s: string)
    | Arr(items: seq<Json>)
    | Obj(members: map<Field, Json>)

  function Members(j: Json): map<Field, Json> {
    if j.Obj? then j.members else map[]
  }

  /** The member's value, `Null` when there is none. */
  function Member(j: Json, f: Field): Json {
    if j.Obj? && f in j.members then j.members[f] else Null
  }

  /** JSON merge patch, section 2 of RFC 7396: objects are merged, null removes a member. */
  function MergePatch(target: Json, patch: Json): Json
    decreases patch
  {
    if !patch.Obj? then patch
    else
      Obj(map f | f in Members(target).Keys + patch.members.Keys && (f in patch.members ==> patch.members[f] != Null) ::
            if f in patch.members then MergePatch(Member(target, f), patch.members[f]) else Members(target)[f])
  }

  /** One member after a patch. */
  lemma MemberAfterPatch(target: Json, patch: Json, f: Field)
    requires patch.Obj?
    ensures Member(MergePatch(target, patch), f) ==
      if f !in patch.members then Member(target, f)
      else if patch.members[f].Obj? then MergePatch(Member(target, f), patch.members[f])
      else patch.members[f]
  {
    if f in patch.members && !patch.members[f].Obj? {
      assert MergePatch(Member(target, f), patch.members[f]) == patch.members[f];
    }
  }

  /** Sending a patch a second time changes nothing, for every document and every patch. */
  lemma {:induction false} MergePatchTwice(target: Json, patch: Json)
    ensures MergePatch(MergePatch(target, patch), patch) == MergePatch(target, patch)
    decreases patch
  {
    if patch.Obj? {
      var once := MergePatch(target, patch);
      var twice := MergePatch(once, patch);
      assert once.members.Keys == twice.members.Keys;
      forall f | f in once.members
        ensures twice.members[f] == once.members[f]
      {
        if f in patch.members {
          MergePatchTwice(Member(target, f), patch.members[f]);
        }
      }
    }
  }
}

/** The replication part of Patroni's configuration, as the controller reads and writes it. */
module PatroniConfig {
  import opened Kube
  import opened Json

  /** `methods` is a list that may be nil; the other fields read as zero values when absent. */
  datatype Standby = Standby(methods: Option<seq<string>>, host: string, port: int, applicationName: string)

  datatype Config = Config(standby: Option<Standby>, syncNodes: Option<string>)

  function Strings(items: seq<Json>): Option<seq<string>> {
    if items == [] then Some([])
    else if !items[0].Str? && !items[0].Null? then None
    else
      var rest := Strings(items[1..]);
      if rest.None? then None else Some([if items[0].Str? then items[0].s else ""] + rest.value)
  }

  predicate IsStringOrNull(j: Json) { j.Str? || j.Null? }

  function StringOf(j: Json): string { if j.Str? then j.s else "" }

  function DecodeStandby(j: Json): Option<Standby>
    requires j.Obj?
  {
    var methods := Member(j, CreateReplicaMethods);
    var port := Member(j, Port);
    if !(methods.Null? || (methods.Arr? && Strings(methods.items).Some?)) then None
    else if !IsStringOrNull(Member(j, Host)) || !IsStringOrNull(Member(j, ApplicationName)) then None
    else if !(port.Num? || port.Null?) then None
    else Some(Standby(if methods.Arr? then Strings(methods.items) else None,
                      StringOf(Member(j, Host)), if port.Num? then port.n else 0, StringOf(Member(j, ApplicationName))))
  }

  /** Reading a document: null and absent members count as not set, anything else of the wrong
      kind is an error; members the code does not know are ignored. */
  function Decode(j: Json): Option<Config> {
    var standby := Member(j, StandbyCluster);
    var nodes := Member(j, SynchronousNodesAdditional);
    if !(j.Obj? || j.Null?) || !(standby.Obj? || standby.Null?) || !IsStringOrNull(nodes) then None
    else if standby.Obj? && DecodeStandby(standby).None? then None
    else Some(Config(if standby.Obj? then DecodeStandby(standby) else None,
                     if nodes.Str? then Some(nodes.s) else None))
  }

  function EncodeStandby(s: Standby): Json {
    Obj(map[CreateReplicaMethods := if s.methods.None? then Null else Arr(seq(|s.methods.value|, i requires 0 <= i < |s.methods.value| => Str(s.methods.value[i]))),
            Host := Str(s.host),
            Port := Num(s.port),
            ApplicationName := Str(s.applicationName)])
  }

  /** Writing a request: nothing is omitted, nil becomes null. */
  function Encode(c: Config): Json {
    Obj(map[StandbyCluster := if c.standby.None? then Null else EncodeStandby(c.standby.value),
            SynchronousNodesAdditional := if c.syncNodes.None? then Null else Str(c.syncNodes.value)])
  }

  /** Whether the document asks for the standby role. */
  predicate HasStandby(j: Json) {
    Member(j, StandbyCluster) != Null
  }

  /** Whatever the document was before (even one that cannot be read), after a patch it reads back
      as exactly the request. */
  lemma PatchThenRead(j: Json, r: Config)
    ensures Decode(MergePatch(j, Encode(r))) == Some(r)
    ensures HasStandby(MergePatch(j, Encode(r))) <==> r.standby.Some?
  {
    MemberAfterPatch(j, Encode(r), SynchronousNodesAdditional);
    MemberAfterPatch(j, Encode(r), StandbyCluster);
    if r.standby.Some? {
      StandbyThenRead(Member(j, StandbyCluster), r.standby.value);
    }
  }

  lemma StandbyThenRead(j: Json, s: Standby)
    ensures MergePatch(j, EncodeStandby(s)).Obj?
    ensures DecodeStandby(MergePatch(j, EncodeStandby(s))) == Some(s)
  {
    var after := MergePatch(j, EncodeStandby(s));
    var e := EncodeStandby(s);
    MemberAfterPatch(j, e, Host);
    MemberAfterPatch(j, e, Port);
    MemberAfterPatch(j, e, ApplicationName);
    MemberAfterPatch(j, e, CreateReplicaMethods);
    if s.methods.Some? {
      StringsOfStrs(s.methods.value, e.members[CreateReplicaMethods].items);
    }
  }

  lemma {:induction false} StringsOfStrs(ss: seq<string>, items: seq<Json>)
    requires |items| == |ss| && forall i :: 0 <= i < |ss| ==> items[i] == Str(ss[i])
    ensures Strings(items) == Some(ss)
  {
    if ss != [] {
      StringsOfStrs(ss[1..], items[1..]);
      assert ss == [ss[0]] + ss[1..];
    }
  }

  /** A patch leaves every member alone that the code does not know, also inside `standby_cluster`. */
  lemma PatchKeepsTheRest(j: Json, r: Config, f: Field)
    ensures f != StandbyCluster && f != SynchronousNodesAdditional ==>
      Member(MergePatch(j, Encode(r)), f) == Member(j, f)
    ensures f.Other? && r.standby.Some? ==>
      Member(Member(MergePatch(j, Encode(r)), StandbyCluster), f) == Member(Member(j, StandbyCluster), f)
  {
    MemberAfterPatch(j, Encode(r), f);
    MemberAfterPatch(j, Encode(r), StandbyCluster);
    if r.standby.Some? {
      MemberAfterPatch(Member(j, StandbyCluster), EncodeStandby(r.standby.value), f);
    }
  }
}
