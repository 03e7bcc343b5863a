/** The removal of a namespace from a role binding: a loop that deletes from the slice it ranges over. */
module Subjects {
  import opened Kube
  import opened World

  /** The list without the service accounts of the namespace. */
  function Without(s: seq<Subject>, ns: string): seq<Subject> {
    if s == [] then [] else (if IsFor(s[0], ns) then [] else [s[0]]) + Without(s[1..], ns)
  }

  /** One of the first `n` subjects is a service account of the namespace. */
  predicate NamedBefore(s: seq<Subject>, ns: string, n: nat)
    requires n <= |s|
  {
    exists i :: 0 <= i < n && IsFor(s[i], ns)
  }

  /** What the loop really leaves: after a removal the next element moves under the index that has
      just been handled, so it is never looked at. */
  function Survivors(s: seq<Subject>, ns: string): seq<Subject> {
    if s == [] then []
    else if !IsFor(s[0], ns) then [s[0]] + Survivors(s[1..], ns)
    else if |s| == 1 then []
    else [s[1]] + Survivors(s[2..], ns)
  }

  /** A removal leaves a second copy of the last element behind the end of the slice; if that one is
      for the namespace the loop slices beyond the end. */
  predicate Overruns(s: seq<Subject>, ns: string) {
    |s| > 0 && IsFor(s[|s| - 1], ns) && NamedBefore(s, ns, |s| - 1)
  }

  predicate NoNeighbours(s: seq<Subject>, ns: string) {
    forall i :: 0 <= i < |s| - 1 ==> !(IsFor(s[i], ns) && IsFor(s[i + 1], ns))
  }

  /** A Go slice: the first `len` elements of its backing array. */
  class Slice {
    const backing: array<Subject>
    var len: nat

    constructor (s: seq<Subject>)
      ensures fresh(backing) && len == backing.Length == |s| && backing[..] == s
    {
      backing := new Subject[|s|](i requires 0 <= i < |s| => s[i]);
      len := |s|;
    }

    ghost predicate Valid()
      reads this
    {
      len <= backing.Length
    }

    /** `append(s[:i], s[i+1:]...)`: shifts the tail inside the same array. */
    method RemoveAt(i: nat)
      requires Valid() && i < len
      modifies this, backing
      ensures Valid() && len == old(len) - 1
      ensures backing[..] == Shifted(old(backing[..]), i, old(len))
    {
      for j := i to len - 1
        invariant len == old(len)
        invariant forall m :: 0 <= m < i ==> backing[m] == old(backing[m])
        invariant forall m :: i <= m < j ==> backing[m] == old(backing[m + 1])
        invariant forall m :: j <= m < backing.Length ==> backing[m] == old(backing[m])
      {
        backing[j] := backing[j + 1];
      }
      len := len - 1;
    }
  }

  /** The array after the removal of element `i` from its first `len` elements. */
  function Shifted(b: seq<Subject>, i: nat, len: nat): (r: seq<Subject>)
    requires i < len <= |b|
    ensures |r| == |b|
  {
    b[..i] + b[i + 1..len] + b[len - 1..]
  }

  /** The loop over the subjects on values: `b` is the backing array, of which the first `|b| - r`
      elements are the slice before index `i`. The range was fixed at the start, so `i` runs through
      the whole array, while every hit shortens the slice; a hit behind its end is a panic. */
  function Loop(b: seq<Subject>, ns: string, i: nat, r: nat): (l: LoopResult)
    requires r <= |b| && i <= |b|
    ensures |l.b| == |b| && l.r <= |b|
    decreases |b| - i
  {
    if i == |b| then LoopResult(b, r, false)
    else if !IsFor(b[i], ns) then Loop(b, ns, i + 1, r)
    else if i >= |b| - r then LoopResult(b, r, true)
    else Loop(Shifted(b, i, |b| - r), ns, i + 1, r + 1)
  }

  datatype LoopResult = LoopResult(b: seq<Subject>, r: nat, panicked: bool)

  /** From here the loop ends as it does from its start. */
  ghost predicate Continues(b: seq<Subject>, i: nat, r: nat, s: seq<Subject>, ns: string) {
    r <= |b| && i <= |b| && Loop(b, ns, i, r) == Loop(s, ns, 0, 0)
  }

  /** It has ended as it does from its start. */
  ghost predicate Ends(b: seq<Subject>, r: nat, panicked: bool, s: seq<Subject>, ns: string) {
    LoopResult(b, r, panicked) == Loop(s, ns, 0, 0)
  }

  lemma Advance(b: seq<Subject>, i: nat, r: nat, s: seq<Subject>, ns: string)
    requires Continues(b, i, r, s, ns)
    ensures i == |b| ==> Ends(b, r, false, s, ns)
    ensures i < |b| && !IsFor(b[i], ns) ==> Continues(b, i + 1, r, s, ns)
    ensures i < |b| && IsFor(b[i], ns) && i >= |b| - r ==> Ends(b, r, true, s, ns)
    ensures i < |b| && IsFor(b[i], ns) && i < |b| - r ==> Continues(Shifted(b, i, |b| - r), i + 1, r + 1, s, ns)
  {
  }

  datatype LoopEnd = Finished | PatchFailed | Panicked

  datatype Stage = Stage(i: nat, r: nat, b: seq<Subject>)

  /** The state of the loop before index `i`, after `r` removals: `b` is the backing array, of which
      the first `|s| - r` elements are the slice. What the loop has not reached stands as it was, only
      shifted, and behind the slice there are copies of the last element. */
  ghost predicate Midway(s: seq<Subject>, ns: string, st: Stage) {
    var Stage(i, r, b) := st;
    && |b| == |s| && r <= i <= |s|
    && (r == 0 <==> !NamedBefore(s, ns, i))
    && (r == 0 ==> forall j :: 0 <= j < i ==> b[j] == s[j])
    && (forall j :: i <= j < |s| - r ==> b[j] == s[j + r])
    && (r > 0 ==> forall j :: |s| - r <= j < |s| ==> b[j] == s[|s| - 1])
    && (i == |s| ==> !Overruns(s, ns))
  }

  /** The slice as it will be at the end. */
  function Result(b: seq<Subject>, ns: string, i: nat, r: nat): seq<Subject>
    requires r <= |b| && i <= |b|
  {
    if i + r <= |b| then b[..i] + Survivors(b[i..|b| - r], ns) else b[..|b| - r]
  }

  /** It will be the survivors. */
  predicate OnTrack(s: seq<Subject>, ns: string, st: Stage) {
    st.r <= |st.b| && st.i <= |st.b| && Result(st.b, ns, st.i, st.r) == Survivors(s, ns)
  }

  lemma StepKeeps(s: seq<Subject>, ns: string, st: Stage)
    requires Midway(s, ns, st) && st.i < |s| && !IsFor(st.b[st.i], ns)
    ensures Midway(s, ns, st.(i := st.i + 1))
  {
    if NamedBefore(s, ns, st.i) {
      var j :| 0 <= j < st.i && IsFor(s[j], ns);
      assert NamedBefore(s, ns, st.i + 1);
    }
    assert Midway(s, ns, st.(i := st.i + 1));
  }

  lemma PassOver(s: seq<Subject>, ns: string, st: Stage) returns (st': Stage)
    requires Midway(s, ns, st) && st.i < |s| && !IsFor(st.b[st.i], ns)
    requires OnTrack(s, ns, st)
    ensures st'.i == st.i + 1 && st'.r == st.r && st'.b == st.b
    ensures Midway(s, ns, st') && OnTrack(s, ns, st')
  {
    st' := st.(i := st.i + 1);
    StepKeeps(s, ns, st);
    KeptSlice(ns, st.i, st.r, st.b);
  }

  lemma StepRemoves(s: seq<Subject>, ns: string, i: nat, r: nat, b: seq<Subject>, b': seq<Subject>, len: nat)
    requires Midway(s, ns, Stage(i, r, b)) && len + 1 == |s| - r && i <= len && IsFor(b[i], ns)
    requires |b'| == |b|
    requires forall j :: 0 <= j < i ==> b'[j] == b[j]
    requires forall j :: i <= j < len ==> b'[j] == b[j + 1]
    requires forall j :: len <= j < |b| ==> b'[j] == b[j]
    ensures Midway(s, ns, Stage(i + 1, r + 1, b'))
  {
    assert NamedBefore(s, ns, i + 1) by {
      if r > 0 {
        var j :| 0 <= j < i && IsFor(s[j], ns);
      } else {
        assert IsFor(s[i], ns);
      }
    }
    assert Midway(s, ns, Stage(i + 1, r + 1, b'));
  }

  lemma StepOverruns(s: seq<Subject>, ns: string, i: nat, r: nat, b: seq<Subject>)
    requires Midway(s, ns, Stage(i, r, b)) && |s| - r <= i < |s| && IsFor(b[i], ns)
    ensures Overruns(s, ns)
  {
    var j :| 0 <= j < i && IsFor(s[j], ns);
  }

  /** The result does not change when the loop passes over an element. */
  lemma KeptSlice(ns: string, i: nat, r: nat, b: seq<Subject>)
    requires r <= |b| && i < |b| && !IsFor(b[i], ns)
    ensures Result(b, ns, i + 1, r) == Result(b, ns, i, r)
  {
    if i + r < |b| {
      var rest := b[i..|b| - r];
      assert rest[0] == b[i] && rest[1..] == b[i + 1..|b| - r];
      assert b[..i + 1] == b[..i] + [b[i]];
    } else if i + r == |b| {
      assert Survivors(b[i..|b| - r], ns) == [];
      assert b[..i] == b[..|b| - r];
    }
  }

  lemma ShiftedElements(b: seq<Subject>, b': seq<Subject>, i: nat, len: nat)
    requires |b'| == |b| && i <= len < |b|
    requires forall j :: 0 <= j < i ==> b'[j] == b[j]
    requires forall j :: i <= j < len ==> b'[j] == b[j + 1]
    ensures b'[..len] == b[..i] + b[i + 1..len + 1] == b[..len + 1][..i] + b[..len + 1][i + 1..]
  {
  }

  /** Nor does it when the loop removes one: the element that moves up is skipped. */
  lemma ShiftedSlice(ns: string, i: nat, r: nat, b: seq<Subject>, b': seq<Subject>, len: nat)
    requires r <= |b| && len + 1 == |b| - r && i <= len && IsFor(b[i], ns)
    requires |b'| == |b| && b'[..len] == b[..i] + b[i + 1..len + 1]
    ensures Result(b', ns, i + 1, r + 1) == Result(b, ns, i, r)
  {
    ResultBefore(ns, i, r, b, len);
    ResultAfter(ns, i, r, b, b', len);
  }

  lemma ResultBefore(ns: string, i: nat, r: nat, b: seq<Subject>, len: nat)
    requires r <= |b| && len + 1 == |b| - r && i <= len && IsFor(b[i], ns)
    ensures Result(b, ns, i, r) == if i < len then b[..i] + [b[i + 1]] + Survivors(b[i + 2..len + 1], ns) else b[..i]
  {
    var rest := b[i..len + 1];
    SurvivorsOfAHit(rest, ns);
    if i < len {
      assert rest[1] == b[i + 1] && rest[2..] == b[i + 2..len + 1];
      Regrouped(b[..i], b[i + 1], Survivors(b[i + 2..len + 1], ns));
    }
  }

  lemma ResultAfter(ns: string, i: nat, r: nat, b: seq<Subject>, b': seq<Subject>, len: nat)
    requires r <= |b| && len + 1 == |b| - r && i <= len
    requires |b'| == |b| && b'[..len] == b[..i] + b[i + 1..len + 1]
    ensures Result(b', ns, i + 1, r + 1) == if i < len then b[..i] + [b[i + 1]] + Survivors(b[i + 2..len + 1], ns) else b[..i]
  {
    if i < len {
      SliceInParts(b, b', i, len);
    } else {
      assert b[i + 1..len + 1] == [];
    }
  }

  lemma Regrouped(a: seq<Subject>, y: Subject, c: seq<Subject>)
    ensures a + ([y] + c) == a + [y] + c
  {
  }

  lemma SurvivorsOfAHit(s: seq<Subject>, ns: string)
    requires s != [] && IsFor(s[0], ns)
    ensures Survivors(s, ns) == if |s| == 1 then [] else [s[1]] + Survivors(s[2..], ns)
  {
  }

  lemma SliceInParts(b: seq<Subject>, b': seq<Subject>, i: nat, len: nat)
    requires i < len < |b| && |b'| == |b| && b'[..len] == b[..i] + b[i + 1..len + 1]
    ensures b'[..i + 1] == b[..i] + [b[i + 1]] && b'[i + 1..len] == b[i + 2..len + 1]
  {
    assert b'[..i + 1] == b'[..len][..i + 1] && b'[i + 1..len] == b'[..len][i + 1..];
  }

  lemma OverrunNeedsTwo(s: seq<Subject>, ns: string)
    requires Overruns(s, ns)
    ensures !AtMostOnePerNamespace(s)
  {
    var j :| 0 <= j < |s| - 1 && IsFor(s[j], ns);
  }

  lemma RemovalKeepsAtMostOne(s: seq<Subject>, i: nat)
    requires i < |s| && AtMostOnePerNamespace(s)
    ensures AtMostOnePerNamespace(s[..i] + s[i + 1..])
  {
    var t := s[..i] + s[i + 1..];
    assert forall j :: 0 <= j < |t| ==> t[j] == s[if j < i then j else j + 1];
  }

  lemma ShiftedAt(b: seq<Subject>, i: nat, len: nat)
    requires i < len <= |b|
    ensures var b' := Shifted(b, i, len);
            && (forall j :: 0 <= j < i ==> b'[j] == b[j])
            && (forall j :: i <= j < len - 1 ==> b'[j] == b[j + 1])
            && (forall j :: len - 1 <= j < |b| ==> b'[j] == b[j])
  {
  }

  lemma ShiftOne(s: seq<Subject>, ns: string, st: Stage) returns (st': Stage)
    requires Midway(s, ns, st) && st.i < |s| - st.r && |st.b| == |s| && IsFor(st.b[st.i], ns)
    requires OnTrack(s, ns, st)
    ensures st'.i == st.i + 1 && st'.r == st.r + 1 && st'.b == Shifted(st.b, st.i, |s| - st.r)
    ensures Midway(s, ns, st') && OnTrack(s, ns, st')
  {
    var Stage(i, r, b) := st;
    var len := |s| - r;
    st' := Stage(i + 1, r + 1, Shifted(b, i, len));
    ShiftKeepsMidway(s, ns, i, r, b, len);
    ShiftKeepsTrack(s, ns, i, r, b, len);
  }

  lemma ShiftKeepsTrack(s: seq<Subject>, ns: string, i: nat, r: nat, b: seq<Subject>, len: nat)
    requires OnTrack(s, ns, Stage(i, r, b)) && len == |b| - r && i < len && IsFor(b[i], ns)
    ensures OnTrack(s, ns, Stage(i + 1, r + 1, Shifted(b, i, len)))
  {
    ShiftKeepsResult(ns, i, r, b, len);
  }

  lemma ShiftKeepsMidway(s: seq<Subject>, ns: string, i: nat, r: nat, b: seq<Subject>, len: nat)
    requires Midway(s, ns, Stage(i, r, b)) && len == |s| - r && i < len && IsFor(b[i], ns)
    ensures Midway(s, ns, Stage(i + 1, r + 1, Shifted(b, i, len)))
  {
    ShiftedAt(b, i, len);
    StepRemoves(s, ns, i, r, b, Shifted(b, i, len), len - 1);
  }

  lemma ShiftKeepsResult(ns: string, i: nat, r: nat, b: seq<Subject>, len: nat)
    requires r <= |b| && len == |b| - r && i < len && IsFor(b[i], ns)
    ensures Result(Shifted(b, i, len), ns, i + 1, r + 1) == Result(b, ns, i, r)
  {
    ShiftedAt(b, i, len);
    ShiftedElements(b, Shifted(b, i, len), i, len - 1);
    ShiftedSlice(ns, i, r, b, Shifted(b, i, len), len - 1);
  }

  /** The loop panics if it overruns, and otherwise leaves the survivors. */
  ghost predicate EndsExactly(s: seq<Subject>, ns: string, l: LoopResult) {
    && (l.panicked <==> Overruns(s, ns))
    && (!l.panicked ==> |l.b| == |s| >= l.r && l.b[..|s| - l.r] == Survivors(s, ns))
  }

  lemma LoopStops(s: seq<Subject>, ns: string, st: Stage)
    requires Midway(s, ns, st) && st.i == |s| && OnTrack(s, ns, st)
    ensures EndsExactly(s, ns, LoopResult(st.b, st.r, false))
  {
    if st.r == 0 {
      assert Survivors(st.b[st.i..|st.b| - st.r], ns) == [];
      assert st.b[..st.i] == st.b[..|st.b| - st.r];
    }
    assert EndsExactly(s, ns, LoopResult(st.b, st.r, false));
  }

  /** A loop at this stage ends in `l`. */
  ghost predicate LeadsTo(ns: string, st: Stage, l: LoopResult) {
    st.r <= |st.b| && st.i <= |st.b| && Loop(st.b, ns, st.i, st.r) == l
  }

  lemma LoopEnds(s: seq<Subject>, ns: string, st: Stage, l: LoopResult)
    requires Midway(s, ns, st) && OnTrack(s, ns, st) && LeadsTo(ns, st, l)
    requires st.i == |s| || (IsFor(st.b[st.i], ns) && st.i >= |s| - st.r)
    ensures EndsExactly(s, ns, l)
  {
    if st.i == |s| {
      LoopStops(s, ns, st);
    } else {
      StepOverruns(s, ns, st.i, st.r, st.b);
    }
  }

  lemma LoopGoesOn(s: seq<Subject>, ns: string, st: Stage, l: LoopResult) returns (st': Stage)
    requires Midway(s, ns, st) && OnTrack(s, ns, st) && LeadsTo(ns, st, l)
    requires st.i < |s| && !(IsFor(st.b[st.i], ns) && st.i >= |s| - st.r)
    ensures st'.i == st.i + 1 && Midway(s, ns, st') && LeadsTo(ns, st', l)
    ensures OnTrack(s, ns, st')
  {
    if IsFor(st.b[st.i], ns) {
      st' := ShiftOne(s, ns, st);
    } else {
      st' := PassOver(s, ns, st);
    }
    LeadsOn(ns, st, st', l);
  }

  lemma LeadsOn(ns: string, st: Stage, st': Stage, l: LoopResult)
    requires LeadsTo(ns, st, l) && st.i < |st.b| && st'.i == st.i + 1
    requires if IsFor(st.b[st.i], ns) then st.i < |st.b| - st.r && st'.r == st.r + 1 && st'.b == Shifted(st.b, st.i, |st.b| - st.r)
             else st'.r == st.r && st'.b == st.b
    ensures LeadsTo(ns, st', l)
  {
  }

  lemma {:induction false} LoopFrom(s: seq<Subject>, ns: string, st: Stage, l: LoopResult)
    requires Midway(s, ns, st) && OnTrack(s, ns, st) && LeadsTo(ns, st, l)
    ensures EndsExactly(s, ns, l)
    decreases |s| - st.i
  {
    if st.i == |s| || (IsFor(st.b[st.i], ns) && st.i >= |s| - st.r) {
      LoopEnds(s, ns, st, l);
    } else {
      var st' := LoopGoesOn(s, ns, st, l);
      LoopFrom(s, ns, st', l);
    }
  }

  /** For every list: the loop panics exactly when it overruns, and otherwise leaves the survivors. */
  lemma LoopIsExact(s: seq<Subject>, ns: string)
    ensures EndsExactly(s, ns, Loop(s, ns, 0, 0))
  {
    assert s[..0] + Survivors(s[0..|s| - 0], ns) == Survivors(s, ns) by {
      assert s[0..|s| - 0] == s;
    }
    assert Midway(s, ns, Stage(0, 0, s));
    LoopFrom(s, ns, Stage(0, 0, s), Loop(s, ns, 0, 0));
  }

  // ---------------------------------------------------------------- the loop as it runs

  lemma PatchIsAllowed(x: Target, s: Store, mode: Mode, key: Key, list: seq<Subject>, i: nat, list': seq<Subject>)
    requires key.kind == ClusterRoleBinding && (key in s ==> s[key] == Binding(list))
    requires i < |list| && list' == list[..i] + list[i + 1..]
    ensures MayUpdate(x, s, key, Binding(list'), mode)
  {
    if AtMostOnePerNamespace(list) {
      RemovalKeepsAtMostOne(list, i);
    }
  }

  /** The binding reads as the slice does; if nobody else acted, that is all that changed in the store. */
  ghost predicate InStep(before: Store, calm: bool, now: Store, key: Key, list: seq<Subject>) {
    && (key in now ==> now[key] == Binding(list))
    && (calm && key in before ==> now == before[key := Binding(list)])
  }

  lemma SliceAfter(b: seq<Subject>, i: nat, len: nat)
    requires i < len <= |b|
    ensures Shifted(b, i, len)[..len - 1] == b[..len][..i] + b[..len][i + 1..]
  {
    assert b[..len][i + 1..] == b[i + 1..len];
  }

  /** Where the loop over `s` stands before index `i`, with `b` in the slice's array. */
  ghost predicate Loops(s: seq<Subject>, ns: string, v: Slice, i: nat, patches: nat)
    reads v, v.backing
  {
    && v.len == v.backing.Length - patches && i <= v.backing.Length
    && Continues(v.backing[..], i, patches, s, ns)
  }

  /** The loop of `UninstallOperator` over the subjects of one binding; every hit is patched at once. */
  method RemoveNamespace(cluster: Cluster, key: Key, v: Slice, ns: string) returns (end: LoopEnd, patches: nat)
    requires v.len == v.backing.Length && key.kind == ClusterRoleBinding
    requires cluster.Valid() && (key in cluster.objects ==> cluster.objects[key] == Binding(v.backing[..]))
    modifies cluster, v, v.backing
    ensures cluster.Progressed()
    ensures v.Valid()
    ensures !end.PatchFailed? ==>
      && Ends(v.backing[..], patches, end.Panicked?, old(v.backing[..]), ns)
      && patches == |cluster.log| - |old(cluster.log)| == v.backing.Length - v.len
      && InStep(old(cluster.objects), old(cluster.Calm()), cluster.objects, key, v.backing[..v.len])
    ensures end.Finished? ==> cluster.Failures() == old(cluster.Failures())
    ensures old(cluster.Calm()) && key in old(cluster.objects) ==> !end.PatchFailed?
  {
    ghost var s, store, calm := v.backing[..], cluster.objects, cluster.Calm();
    var n := v.len;
    end, patches := Finished, 0;
    assert v.backing[..n] == s;
    assert InStep(store, calm, store, key, s);
    for i := 0 to n
      invariant end == Finished && Loops(s, ns, v, i, patches)
      invariant cluster.Progressed() && |cluster.log| == |old(cluster.log)| + patches && cluster.Failures() == old(cluster.Failures())
      invariant InStep(store, calm, cluster.objects, key, v.backing[..v.len])
    {
      end := Visit(cluster, key, v, ns, i, patches, s, store, calm);
      if end != Finished {
        break;
      }
      patches := v.backing.Length - v.len;
    }
  }

  /** One round: if the subject belongs to the namespace it leaves the slice, and the binding is patched. */
  method Visit(cluster: Cluster, key: Key, v: Slice, ns: string, i: nat, ghost patches: nat, ghost s: seq<Subject>, ghost store: Store, ghost calm: bool)
    returns (end: LoopEnd)
    requires i < v.backing.Length && Loops(s, ns, v, i, patches) && key.kind == ClusterRoleBinding
    requires (calm ==> cluster.Calm()) && cluster.Valid() && InStep(store, calm, cluster.objects, key, v.backing[..v.len])
    modifies cluster, v, v.backing
    ensures v.len == old(v.len) || v.len + 1 == old(v.len)
    ensures cluster.Progressed()
    ensures end.Finished? ==> Loops(s, ns, v, i + 1, v.backing.Length - v.len)
    ensures end.Panicked? ==> v.len == old(v.len) && Ends(v.backing[..], patches, true, s, ns)
    ensures !end.PatchFailed? ==>
      && |cluster.log| == |old(cluster.log)| + old(v.len) - v.len
      && InStep(store, calm, cluster.objects, key, v.backing[..v.len])
    ensures end.Finished? ==> cluster.Failures() == old(cluster.Failures())
    ensures calm && key in store ==> !end.PatchFailed?
  {
    Advance(v.backing[..], i, patches, s, ns);
    if !IsFor(v.backing[i], ns) {
      end := Finished;
    } else if i >= v.len {
      end := Panicked;
    } else {
      end := VisitHit(cluster, key, v, ns, i, patches, s, store, calm);
    }
  }

  method VisitHit(cluster: Cluster, key: Key, v: Slice, ns: string, i: nat, ghost patches: nat, ghost s: seq<Subject>, ghost store: Store, ghost calm: bool)
    returns (end: LoopEnd)
    requires i < v.len <= v.backing.Length && v.len == v.backing.Length - patches && key.kind == ClusterRoleBinding
    requires Continues(Shifted(v.backing[..], i, v.len), i + 1, patches + 1, s, ns)
    requires (calm ==> cluster.Calm()) && cluster.Valid() && InStep(store, calm, cluster.objects, key, v.backing[..v.len])
    modifies cluster, v, v.backing
    ensures v.len + 1 == old(v.len) && !end.Panicked?
    ensures cluster.Progressed() && |cluster.log| == |old(cluster.log)| + 1
    ensures v.backing.Length - v.len == patches + 1 && Continues(v.backing[..], i + 1, patches + 1, s, ns)
    ensures end.Finished? ==> InStep(store, calm, cluster.objects, key, v.backing[..v.len]) && cluster.Failures() == old(cluster.Failures())
    ensures calm && key in store ==> !end.PatchFailed?
  {
    var e := RemoveAndPatch(cluster, key, v, i, store, calm);
    end := if e.None? then Finished else PatchFailed;
  }

  method RemoveAndPatch(cluster: Cluster, key: Key, v: Slice, i: nat, ghost store: Store, ghost calm: bool) returns (e: Option<Error>)
    requires v.Valid() && i < v.len && key.kind == ClusterRoleBinding
    requires (calm ==> cluster.Calm()) && cluster.Valid() && InStep(store, calm, cluster.objects, key, v.backing[..v.len])
    modifies cluster, v, v.backing
    ensures v.Valid() && v.len == old(v.len) - 1 && v.backing[..] == Shifted(old(v.backing[..]), i, old(v.len))
    ensures cluster.Progressed() && |cluster.log| == |old(cluster.log)| + 1
    ensures e.None? ==> InStep(store, calm, cluster.objects, key, v.backing[..v.len]) && cluster.Failures() == old(cluster.Failures())
    ensures calm && key in store ==> e.None?
  {
    ghost var b, len := v.backing[..], v.len;
    v.RemoveAt(i);
    ghost var list := v.backing[..v.len];
    SliceAfter(b, i, len);
    PatchIsAllowed(cluster.x, cluster.objects, cluster.mode, key, b[..len], i, list);
    e := cluster.Update(key, Binding(v.backing[..v.len]));
    assert e.None? ==> InStep(store, calm, cluster.objects, key, list);
  }

  // ---------------------------------------------------------------- when the loop is right

  /** For every list the loop ends without a panic and with every subject of the namespace gone, and
      only those, if and only if no two of them are neighbours and the last subject is not one of several. */
  lemma LoopIsRightExactly(s: seq<Subject>, ns: string)
    ensures var l := Loop(s, ns, 0, 0);
            (!l.panicked && l.b[..|s| - l.r] == Without(s, ns)) <==> (!Overruns(s, ns) && NoNeighbours(s, ns))
  {
    LoopIsExact(s, ns);
    SurvivorsExact(s, ns);
  }

  lemma {:induction false} WithoutNone(s: seq<Subject>, ns: string)
    ensures forall y :: y in Without(s, ns) ==> y in s && !IsFor(y, ns)
  {
    if s != [] {
      WithoutNone(s[1..], ns);
    }
  }

  lemma {:induction false} SurvivorsExact(s: seq<Subject>, ns: string)
    ensures Survivors(s, ns) == Without(s, ns) <==> NoNeighbours(s, ns)
    decreases |s|
  {
    if |s| > 0 {
      NeighboursOfTail(s, ns);
      if !IsFor(s[0], ns) {
        SurvivorsExact(s[1..], ns);
        assert Survivors(s, ns)[1..] == Survivors(s[1..], ns) && Without(s, ns)[1..] == Without(s[1..], ns);
      } else if |s| > 1 {
        SurvivorsAfterAHit(s, ns);
      }
    }
  }

  lemma {:induction false} SurvivorsAfterAHit(s: seq<Subject>, ns: string)
    requires |s| > 1 && IsFor(s[0], ns)
    ensures Survivors(s, ns) == Without(s, ns) <==> !IsFor(s[1], ns) && NoNeighbours(s[1..], ns)
    decreases |s|, 0
  {
    assert s[1..][1..] == s[2..];
    var rest := Survivors(s[2..], ns);
    assert Survivors(s, ns) == [s[1]] + rest;
    if IsFor(s[1], ns) {
      WithoutNone(s, ns);
      assert Survivors(s, ns)[0] == s[1];
      assert s[1] in Survivors(s, ns);
    } else {
      SurvivorsExact(s[2..], ns);
      NeighboursOfTail(s[1..], ns);
      assert Without(s, ns) == Without(s[1..], ns) == [s[1]] + Without(s[2..], ns);
      assert Survivors(s, ns)[1..] == rest && Without(s, ns)[1..] == Without(s[2..], ns);
    }
  }

  lemma NeighboursOfTail(s: seq<Subject>, ns: string)
    requires |s| > 0
    ensures NoNeighbours(s, ns) <==>
      NoNeighbours(s[1..], ns) && (|s| > 1 ==> !(IsFor(s[0], ns) && IsFor(s[1], ns)))
  {
    if NoNeighbours(s[1..], ns) && (|s| > 1 ==> !(IsFor(s[0], ns) && IsFor(s[1], ns))) {
      forall i | 0 <= i < |s| - 1
        ensures !(IsFor(s[i], ns) && IsFor(s[i + 1], ns))
      {
        if i > 0 {
          assert s[1..][i - 1] == s[i] && s[1..][i] == s[i + 1];
        }
      }
    }
    if NoNeighbours(s, ns) {
      forall i | 0 <= i < |s[1..]| - 1
        ensures !(IsFor(s[1..][i], ns) && IsFor(s[1..][i + 1], ns))
      {
        assert s[1..][i] == s[i + 1] && s[1..][i + 1] == s[(i + 1) + 1];
      }
    }
  }

  /** With at most one service account per namespace the loop stays in bounds, patches once if the
      namespace is named and never otherwise, removes exactly that subject, and keeps the others in order. */
  lemma LoopIsRightForOne(s: seq<Subject>, ns: string)
    requires AtMostOnePerNamespace(s)
    ensures var l := Loop(s, ns, 0, 0);
            && !l.panicked && l.b[..|s| - l.r] == Without(s, ns)
            && l.r == (if NamedBefore(s, ns, |s|) then 1 else 0)
    ensures !NamedBefore(s, ns, |s|) ==> Without(s, ns) == s
    ensures forall i :: 0 <= i < |s| && IsFor(s[i], ns) ==> Without(s, ns) == s[..i] + s[i + 1..]
    ensures AtMostOnePerNamespace(Without(s, ns))
  {
    if Overruns(s, ns) {
      OverrunNeedsTwo(s, ns);
    }
    LoopIsRightExactly(s, ns);
    forall i | 0 <= i < |s| && IsFor(s[i], ns)
      ensures Without(s, ns) == s[..i] + s[i + 1..] && AtMostOnePerNamespace(Without(s, ns))
    {
      WithoutOne(s, ns, i);
      RemovalKeepsAtMostOne(s, i);
    }
    if !NamedBefore(s, ns, |s|) {
      WithoutAbsent(s, ns);
    }
  }

  lemma GoodListEndsWithout(s: seq<Subject>, ns: string, b: seq<Subject>, r: nat, panicked: bool)
    requires AtMostOnePerNamespace(s) && Ends(b, r, panicked, s, ns)
    ensures !panicked && r <= |b| && b[..|b| - r] == Without(s, ns)
  {
    LoopIsRightForOne(s, ns);
  }

  lemma {:induction false} WithoutAbsent(s: seq<Subject>, ns: string)
    requires forall j :: 0 <= j < |s| ==> !IsFor(s[j], ns)
    ensures Without(s, ns) == s
  {
    if s != [] {
      WithoutAbsent(s[1..], ns);
      assert s == [s[0]] + s[1..];
    }
  }

  lemma {:induction false} WithoutOne(s: seq<Subject>, ns: string, i: nat)
    requires i < |s| && IsFor(s[i], ns)
    requires forall j :: 0 <= j < |s| && j != i ==> !IsFor(s[j], ns)
    ensures Without(s, ns) == s[..i] + s[i + 1..]
  {
    if i == 0 {
      WithoutAbsent(s[1..], ns);
    } else {
      WithoutOne(s[1..], ns, i - 1);
      assert s[..i] == [s[0]] + s[1..][..i - 1];
      assert s[i + 1..] == s[1..][i..];
    }
  }

  /** The two ways to go wrong, by example: of two neighbours one stays, and a last subject that is one
      of several makes the loop slice beyond the end. */
  lemma LoopCanGoWrong(ns: string, other: Subject)
    requires !IsFor(other, ns)
    ensures var x := Subject(ServiceAccountSubject, "postgres-operator", ns);
            && (var l := Loop([x, x, other], ns, 0, 0); !l.panicked && l.b[..3 - l.r] == [x, other])
            && Loop([x, other, x], ns, 0, 0).panicked
  {
    var x := Subject(ServiceAccountSubject, "postgres-operator", ns);
    LoopIsExact([x, x, other], ns);
    LoopIsExact([x, other, x], ns);
    assert [x, x, other][2..] == [other];
    assert Survivors([other], ns) == [other];
    assert IsFor([x, other, x][0], ns);
  }
}
